/**
 * Host decomposition: how the gateway turns the `Host` of a request into the
 * site's long name and the service name that the name service resolves.
 * Labels are read right to left; the right-most one is dropped, the next is
 * the long name, and whatever is left, back in textual order, is the service.
 */
module Address {
  import opened Wrappers
  import opened Labels

  /** The pair handed to the name service: which site, and which of its services. */
  datatype SiteAddress = SiteAddress(longName: string, service: string)

  /** The host had no label left for a long name; the request answers 400. */
  datatype AddressError = NoLongName

  /** Service used when the host names none. */
  const DefaultService: string := "www"

  /** Hard-wired address of the branch taken when `rsplit` yields nothing. */
  const FallbackAddress: SiteAddress := SiteAddress("nobackend-example", "invoice-app")

  /** The site address of a domain-style host, or why it has none. */
  function Resolve(domain: string): (r: Result<SiteAddress, AddressError>)
    ensures r.Ok? ==> '.' !in r.value.longName
  {
    var parts := RSplit(domain, '.');
    if |parts| >= 1 then
      // parts[0] is the top-level label and is discarded
      if |parts| < 2 then Err(NoLongName)
      else
        var services := parts[2..];
        Ok(SiteAddress(parts[1], if |services| > 0 then Join(Reverse(services), '.') else DefaultService))
    else
      Ok(FallbackAddress)
  }

  /**
   * The labels of a host in textual order: joined with dots they give the
   * host back, none holds a dot, and there is at least one.
   */
  lemma {:induction false} HostLabels(domain: string)
    ensures var labels := Reverse(RSplit(domain, '.'));
      && |labels| >= 1
      && Join(labels, '.') == domain
      && forall i :: 0 <= i < |labels| ==> '.' !in labels[i]
  {
    JoinRSplit(domain, '.');
  }

  /**
   * A host written as separator-free labels resolves to the second label from
   * the right as long name and the labels before it, still in textual order,
   * as service; with only two labels the service is "www", and with one there
   * is no long name.
   */
  lemma {:induction false} ResolveLabels(labels: seq<string>)
    requires |labels| >= 1
    requires forall i :: 0 <= i < |labels| ==> '.' !in labels[i]
    ensures var n := |labels|;
      Resolve(Join(labels, '.')) ==
        if n < 2 then Err(NoLongName)
        else Ok(SiteAddress(labels[n - 2], if n > 2 then Join(labels[..n - 2], '.') else DefaultService))
  {
    var n := |labels|;
    RSplitJoin(labels, '.');
    var parts := Reverse(labels);
    if n > 2 {
      assert Reverse(parts[2..]) == labels[..n - 2];
    }
  }

  /** Every host resolves exactly as its own labels do (ResolveLabels applies to all hosts). */
  lemma {:induction false} ResolveByLabels(domain: string)
    ensures var labels := Reverse(RSplit(domain, '.'));
      var n := |labels|;
      Resolve(domain) ==
        if n < 2 then Err(NoLongName)
        else Ok(SiteAddress(labels[n - 2], if n > 2 then Join(labels[..n - 2], '.') else DefaultService))
  {
    HostLabels(domain);
    ResolveLabels(Reverse(RSplit(domain, '.')));
  }

  /** A host without a dot, the empty host included, has no long name: 400. */
  lemma {:induction false} ResolveRejectsIffNoDot(domain: string)
    ensures Resolve(domain).Err? <==> '.' !in domain
  {
    match LastIndexOf(domain, '.')
    case None =>
    case Some(k) =>
      assert |RSplit(domain, '.')| == 1 + |RSplit(domain[..k], '.')|;
  }

  /** With at least three labels the host is service, long name and top-level label, dot-separated. */
  lemma {:induction false} ResolveReassembles(domain: string)
    requires |RSplit(domain, '.')| >= 3
    ensures Resolve(domain).Ok?
    ensures var a := Resolve(domain).value;
      domain == a.service + "." + a.longName + "." + RSplit(domain, '.')[0]
  {
    var labels := Reverse(RSplit(domain, '.'));
    var n := |labels|;
    HostLabels(domain);
    ResolveByLabels(domain);
    var front := labels[..n - 1];
    assert labels == front + [labels[n - 1]];
    JoinSnoc(front, labels[n - 1], '.');
    assert front == labels[..n - 2] + [labels[n - 2]];
    JoinSnoc(labels[..n - 2], labels[n - 2], '.');
  }

  /** Four labels: the third is the long name, the first two the service. */
  lemma ExampleFourLabels()
    ensures Resolve("a.b.c.example") == Ok(SiteAddress("c", "a.b"))
  {
    var labels := ["a", "b", "c", "example"];
    assert labels[..2] == ["a", "b"] && labels[..3] == ["a", "b", "c"];
    assert ["a", "b"][..1] == ["a"];
    assert Join(["a", "b"], '.') == "a.b";
    assert Join(["a", "b", "c"], '.') == "a.b.c";
    assert Join(labels, '.') == "a.b.c.example";
    ResolveLabels(labels);
  }

  /** Three labels: the middle one is the long name, the first the service. */
  lemma ExampleThreeLabels()
    ensures Resolve("invoice-app.nobackend-example.safenet") == Ok(SiteAddress("nobackend-example", "invoice-app"))
  {
    var labels := ["invoice-app", "nobackend-example", "safenet"];
    assert labels[..1] == ["invoice-app"];
    assert labels[..2] == ["invoice-app", "nobackend-example"];
    assert Join(labels[..2], '.') == "invoice-app.nobackend-example";
    assert Join(labels, '.') == "invoice-app.nobackend-example.safenet";
    ResolveLabels(labels);
  }

  /** Two labels: the left one is the long name and the service defaults to "www". */
  lemma ExampleTwoLabels()
    ensures Resolve("invoice-app.nobackend-example") == Ok(SiteAddress("invoice-app", "www"))
  {
    var labels := ["invoice-app", "nobackend-example"];
    assert labels[..1] == ["invoice-app"];
    assert Join(labels[..1], '.') == "invoice-app";
    assert Join(labels, '.') == "invoice-app.nobackend-example";
    ResolveLabels(labels);
  }
}
