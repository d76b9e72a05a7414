/**
 * The request handler (`proxy_request`): take a client from the pool, reject
 * IP hosts, decompose the domain, resolve the path, and serve the file's
 * bytes with the MIME type of its extension. The MIME table is the
 * parameter `mimeOf`; a failed lookup in the store, which the handler
 * unwraps, is the `Panic` outcome.
 */
module Proxy {
  import opened Wrappers
  import opened Address
  import opened Paths
  import opened Network
  import opened Pool

  /** The host of the request URL. */
  datatype Host = Domain(name: string) | Ipv4(address: nat) | Ipv6(address: nat)

  datatype Status = Ok200 | BadRequest400 | NotFound404

  datatype Body = Empty | Text(text: string) | Bytes(bytes: seq<byte>)

  datatype Response<M> = Response(status: Status, body: Body, contentType: Option<M>)

  /** A response, or the store lookup whose unwrap aborted the handler. */
  datatype Outcome<M> = Respond(response: Response<M>) | Panic(cause: FetchError)

  /** Body of the answer to an IP host. */
  const IpRejection: string := "Can't connect with IP"

  /** What the handler produces for a request. */
  function Handle<M>(host: Host, path: seq<string>, store: Store, mimeOf: string -> M): Outcome<M>
  {
    match host
    case Domain(domain) =>
      (match Resolve(domain)
       case Err(_) => Respond(Response(BadRequest400, Empty, None))
       case Ok(site) =>
         var rp := ResolvePath(path);
         var mime := mimeOf(Extension(rp.fileName));
         match Fetch(store, site.longName, site.service, rp.dirs, rp.fileName)
         case Err(e) => Panic(e)
         case Ok(bytes) => Respond(Response(Ok200, Bytes(bytes), Some(mime))))
    case _ => Respond(Response(NotFound404, Text(IpRejection), None))
  }

  /** `proxy_request`: the client is taken before the host is looked at, even for an IP host. */
  method ProxyRequest<M>(pool: ClientPool, threadId: nat, host: Host, path: seq<string>,
                         store: Store, mimeOf: string -> M) returns (out: Outcome<M>)
    requires pool.Valid()
    modifies pool
    ensures pool.Valid() && Slot(threadId) in pool.slots
    ensures Slot(threadId) in old(pool.slots) ==> pool.slots == old(pool.slots)
    ensures Slot(threadId) !in old(pool.slots) ==>
      pool.slots == old(pool.slots)[Slot(threadId) := pool.slots[Slot(threadId)]]
    ensures Slot(threadId) !in old(pool.slots) ==> fresh(pool.slots[Slot(threadId)])
    ensures out == Handle(host, path, store, mimeOf)
  {
    var client := pool.GetClient(threadId);
    match host
    case Domain(domain) =>
      var site := Resolve(domain);
      if site.Err? {
        return Respond(Response(BadRequest400, Empty, None));
      }
      var rp := ResolvePath(path);
      var mime := mimeOf(Extension(rp.fileName));
      var file := FetchFile(store, site.value.longName, site.value.service, rp.dirs, rp.fileName);
      if file.Err? {
        return Panic(file.error);
      }
      out := Respond(Response(Ok200, Bytes(file.value), Some(mime)));
    case _ =>
      out := Respond(Response(NotFound404, Text(IpRejection), None));
  }

  /** An IP host is answered 404 with a plain-text reason, whatever the path. */
  lemma HandleRejectsIp<M>(host: Host, path: seq<string>, store: Store, mimeOf: string -> M)
    requires !host.Domain?
    ensures Handle(host, path, store, mimeOf) == Respond(Response(NotFound404, Text(IpRejection), None))
  {
  }

  /** A domain is answered 400 exactly when it has no dot. */
  lemma {:induction false} HandleBadRequestIffNoDot<M>(domain: string, path: seq<string>, store: Store, mimeOf: string -> M)
    ensures Handle(Domain(domain), path, store, mimeOf) == Respond(Response(BadRequest400, Empty, None))
      <==> '.' !in domain
  {
    ResolveRejectsIffNoDot(domain);
  }

  /**
   * A domain with a dot is answered 200 exactly when the fetch of the
   * resolved file succeeds; the body is then the file's bytes and the type
   * that of the file name's extension. Otherwise the handler panics with
   * the fetch's error.
   */
  lemma {:induction false} HandleServesFetch<M>(domain: string, path: seq<string>, store: Store, mimeOf: string -> M)
    requires '.' in domain
    ensures Resolve(domain).Ok?
    ensures var site := Resolve(domain).value;
      var rp := ResolvePath(path);
      var fetched := Fetch(store, site.longName, site.service, rp.dirs, rp.fileName);
      Handle(Domain(domain), path, store, mimeOf) ==
        if fetched.Ok? then Respond(Response(Ok200, Bytes(fetched.value), Some(mimeOf(Extension(rp.fileName)))))
        else Panic(fetched.error)
  {
    ResolveRejectsIffNoDot(domain);
  }

  /** A site whose service "invoice-app" holds docs/readme.md. */
  function ExampleSite(): Store
  {
    Store(
      map[DirKey(0) := Listing([Named("docs", DirKey(1))], [Named("index.html", [60])]),
          DirKey(1) := Listing([], [Named("readme.md", [35, 32, 104, 105])])],
      DirKey(0),
      map[("nobackend-example", "invoice-app") := DirKey(0)])
  }

  /**
   * invoice-app.nobackend-example.safenet/docs/readme.md is served from the
   * docs directory of service invoice-app of site nobackend-example, typed by
   * the extension "md".
   */
  lemma ExampleEndToEnd<M>(mimeOf: string -> M)
    ensures Handle(Domain("invoice-app.nobackend-example.safenet"), ["docs", "readme.md"], ExampleSite(), mimeOf)
      == Respond(Response(Ok200, Bytes([35, 32, 104, 105]), Some(mimeOf("md"))))
  {
    ExampleThreeLabels();
    ExampleReadme();
    ExampleSiteFetch();
    HandleServed("invoice-app.nobackend-example.safenet", ["docs", "readme.md"], ExampleSite(), mimeOf,
      SiteAddress("nobackend-example", "invoice-app"), [35, 32, 104, 105]);
  }

  /** A resolved host and a successful fetch give the 200 answer. */
  lemma HandleServed<M>(domain: string, path: seq<string>, store: Store, mimeOf: string -> M,
                        site: SiteAddress, bytes: seq<byte>)
    requires Resolve(domain) == Ok(site)
    requires Fetch(store, site.longName, site.service, ResolvePath(path).dirs, ResolvePath(path).fileName) == Ok(bytes)
    ensures Handle(Domain(domain), path, store, mimeOf)
      == Respond(Response(Ok200, Bytes(bytes), Some(mimeOf(Extension(ResolvePath(path).fileName)))))
  {
  }

  lemma ExampleSiteFetch()
    ensures Fetch(ExampleSite(), "nobackend-example", "invoice-app", ["docs"], "readme.md") == Ok([35, 32, 104, 105])
  {
    var s := ExampleSite();
    var docs := s.listings[DirKey(1)];
    assert ServiceHome(s, "nobackend-example", "invoice-app") == Ok(DirKey(0));
    assert Step(s, s.listings[DirKey(0)], "docs") == Ok(docs);
    assert ["docs"][1..] == [];
    assert WalkFrom(s, Some(DirKey(0)), ["docs"]) == Ok(docs);
    assert FindByName(docs.files, "readme.md") == Some(0);
    var content: seq<byte> := [35, 32, 104, 105];
    assert docs.files[0].item == content;
    assert content[0..|content|] == content;
  }

  /**
   * With only two labels the top-level label is dropped, so
   * invoice-app.nobackend-example asks for service "www" of site
   * "invoice-app", which this store does not have.
   */
  lemma ExampleTwoLabelHost<M>(mimeOf: string -> M)
    ensures Handle(Domain("invoice-app.nobackend-example"), ["docs", "readme.md"], ExampleSite(), mimeOf)
      == Panic(ServiceNotFound("invoice-app", "www"))
  {
    ExampleTwoLabels();
  }
}
