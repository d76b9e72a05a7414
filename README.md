# safe_proxy request resolution, modelled in Dafny

The gateway answers an HTTP request by turning its host into a site
("long name") and a service, turning its path into directories and a file
name, walking the remote store's directory tree from the service's home
directory, reading the whole file, and answering it with the MIME type of its
extension. Requests share a pool of at most ten storage-network clients,
one slot per thread id modulo ten.

The model, one module per component of `src/main.rs`:

- `Wrappers` — `Option` and `Result`.
- `Labels` — `str::rsplit` on one character (`RSplit`), `Vec::reverse` (`Reverse`) and `join` (`Join`), with the two round trips between splitting and joining.
- `Address` — host decomposition (`Resolve`). It drops the right-most label; the next label is the long name; the remaining labels, put back in textual order, are the service, or "www" when none remain.
- `Paths` — the popped file name with its "index.html" default (`ResolvePath`), and the MIME extension (`Extension`).
- `Network` — the remote store as a value. It holds listings by key, the user's root and the name service's table of service homes. `GetFinalSubdirectory` is the loop that walks the tree, proved equal to the function `WalkFrom` (the start-listing lookup followed by `Walk`). `FetchFile` is proved equal to `Fetch`.
- `Pool` — the client pool as a class with a `map` field. `GetClient` fills a slot lazily. `Kickstart` refills every slot.
- `Proxy` — the handler: `ProxyRequest` (a method, because it updates the pool and runs the walk loop), specified by the function `Handle`.

Behaviour of the code worth noting:

- A host with three or more labels gets a service made of the labels left of the long name, in their textual order: "a.b.c.example" gives long name "c" and service "a.b".
- The right-most label is always dropped. So "invoice-app.nobackend-example" asks for service "www" of site "invoice-app", not for service "invoice-app" of site "nobackend-example" (`Proxy.ExampleTwoLabelHost`).
- Only the last path segment is examined. Empty segments before it stay among the directories; they are not removed.
- An IP host is answered 404 with the text "Can't connect with IP", not 400.
- A failed lookup in the store (service, directory, file or read) panics through `unwrap!`. It does not produce a 404 answer. The model reports it as the `Panic` outcome carrying the failing step.
- The extension default "html" and the fallback address ("nobackend-example", "invoice-app") are dead code: `rsplit` always yields a first piece (`Labels.RSplit` ensures at least one).

## Model

| member | source | states |
|---|---|---|
| Labels.LastIndexOf | src/main.rs:102-103 | finds the right-most separator: it is at the returned index, no separator follows it, and there is none at all exactly when the result is None |
| Labels.RSplit | src/main.rs:102-104 | `rsplit` always yields at least one piece, so the first `next()` is never None, and no piece contains the separator |
| Labels.Reverse | src/main.rs:110 | the reversed vector has the same length and holds element `|s|-1-i` at position `i` |
| Labels.JoinSnoc | src/main.rs:111 | joining a non-empty list extended by one piece appends the separator and that piece |
| Labels.JoinRSplit | src/main.rs:102-111 | splitting from the right, reversing and joining gives back the original text |
| Labels.RSplitJoin | src/main.rs:102-111 | splitting a join of separator-free pieces from the right yields those pieces in reverse order |
| Address.Resolve | src/main.rs:100-119 | a resolved long name never contains a dot |
| Address.HostLabels | src/main.rs:102 | every host is the dot-join of at least one dot-free label (its labels in textual order) |
| Address.ResolveLabels | src/main.rs:102-116 | for labels l1..ln: one label gives 400; otherwise the long name is l(n-1) and the service is l1..l(n-2) joined in textual order, or "www" when n = 2 |
| Address.ResolveByLabels | src/main.rs:102-116 | every host resolves as its own textual labels prescribe, by the rule above |
| Address.ResolveRejectsIffNoDot | src/main.rs:102-105 | resolution fails (400) exactly when the host has no dot, the empty host included |
| Address.ResolveReassembles | src/main.rs:102-111 | with three or more labels, the host equals service + "." + long name + "." + the dropped top-level label |
| Address.ExampleFourLabels | src/main.rs:102-111 | "a.b.c.example" gives long name "c" and service "a.b" |
| Address.ExampleThreeLabels | src/main.rs:102-111 | "invoice-app.nobackend-example.safenet" gives long name "nobackend-example" and service "invoice-app" |
| Address.ExampleTwoLabels | src/main.rs:102-116 | "invoice-app.nobackend-example" gives long name "invoice-app" and service "www" |
| Paths.ResolvePath | src/main.rs:122-130 | the file name is never empty; the directories followed by the popped segment give back the path; the file name is the last segment, or "index.html" when the path is empty or its last segment is empty |
| Paths.Extension | src/main.rs:131 | the extension contains no dot, is a suffix of the file name, and is preceded by a dot unless it is the whole name |
| Paths.ExtensionOfDotless | src/main.rs:131 | a name without a dot is its own extension |
| Paths.ExtensionAfterLastDot | src/main.rs:131 | `stem.ext` with a dot-free `ext` has extension `ext`, whatever dots `stem` holds |
| Paths.ExamplePaths | src/main.rs:122-130 | a/b/c.txt gives directories a, b and file c.txt; a/b/ and the empty path give "index.html" |
| Paths.ExampleReadme | src/main.rs:122-131 | docs/readme.md gives directory docs, file readme.md and extension "md" |
| Network.FindByName | src/main.rs:55-57 | the result is the index of the first entry with exactly that name; None means no entry has it |
| Network.GetListing | src/main.rs:47-50 | a directory key yields its stored listing, and fails with that key when the store has none |
| Network.GetFinalSubdirectory | src/main.rs:40-63 | the loop returns the walk's result; with no tokens that is the starting listing (given key or user root) |
| Network.WalkAppend | src/main.rs:52-60 | walking t1 + t2 is walking t1, then t2 from where it ended, and fails when the first part fails |
| Network.WalkSound | src/main.rs:52-60 | a successful walk found every token in order, each as a sub-directory of the previous listing, and ends at the last one |
| Network.WalkComplete | src/main.rs:52-60 | if every token is found in order, the walk succeeds and ends at the last listing of the chain |
| Network.WalkFailsAt | src/main.rs:55-58 | a failed walk failed at one token: every token before it was found, and the step for it gives exactly the walk's error |
| Network.ReadRange | src/main.rs:80-82 | a read of `[offset, offset + len)` succeeds exactly when the file has those bytes, and returns them |
| Network.ServiceHome | src/main.rs:73-74 | the name service finds a home directory exactly for recorded (long name, service) pairs, returns the recorded key, and otherwise fails with ServiceNotFound for that pair |
| Network.FetchFile | src/main.rs:68-83 | the method computes `Fetch`: name-service lookup, walk, file lookup, full-range read |
| Network.FetchWholeFile | src/main.rs:74-82 | a fetch succeeds exactly when the service home exists, the walk reaches a directory and a file of that name is in it; the bytes are the whole content of the first file of that name in the walked directory, i.e. the read of `[0, size)` of it |
| Network.ExampleWalks | src/main.rs:47-62 | in the tree root/a/b/c, walking a/b gives b's listing, a/x fails on "x", and no tokens gives the root |
| Pool.Slot | src/main.rs:89 | a thread's slot is below `CLIENTSIZE` (10) |
| Pool.SlotsBounded | src/main.rs:33-36 | a map keyed by slot numbers holds at most 10 clients |
| Pool.ClientPool.constructor | src/main.rs:35-37 | the pool starts empty |
| Pool.ClientPool.GetClient | src/main.rs:86-94 | returns the client of the thread's slot. An occupied slot keeps its client and the pool is unchanged. An empty slot gets a fresh client and no other slot changes. The pool stays within 10 entries |
| Pool.ClientPool.Kickstart | src/main.rs:148-153 | afterwards exactly slots 0..9 are occupied, each by a newly created client, no two alike |
| Pool.SameSlotSameClient | src/main.rs:89-93 | two threads whose ids agree modulo 10 get the same client instance |
| Proxy.ProxyRequest | src/main.rs:97-142 | takes a client from the pool: an occupied slot leaves the pool unchanged, an empty one is filled with a fresh client and nothing else changes; the outcome is exactly `Handle`'s |
| Proxy.HandleRejectsIp | src/main.rs:100 | an IP host is answered 404 with "Can't connect with IP", whatever the path |
| Proxy.HandleBadRequestIffNoDot | src/main.rs:102-105 | a domain is answered 400 exactly when it has no dot |
| Proxy.HandleServesFetch | src/main.rs:122-138 | a domain with a dot is answered 200 with the fetched bytes and the MIME type of the file name's extension when the fetch succeeds, and panics with the fetch's error otherwise |
| Proxy.HandleServed | src/main.rs:131-138 | a resolved host and a successful fetch give 200 with those bytes and the extension's MIME type |
| Proxy.ExampleSiteFetch | src/main.rs:68-83 | fetching docs/readme.md of service invoice-app of site nobackend-example returns the file's bytes |
| Proxy.ExampleEndToEnd | src/main.rs:97-138 | invoice-app.nobackend-example.safenet/docs/readme.md is answered 200 with readme.md's bytes and the MIME type for "md" |
| Proxy.ExampleTwoLabelHost | src/main.rs:102-116 | invoice-app.nobackend-example looks up service "www" of site "invoice-app", so the example store makes the handler panic with ServiceNotFound |

## Left out

- The Iron HTTP server, `main`'s start-up, the listening address, logging and `println!`: I/O plumbing. The host and the path reach the model already parsed, as `Proxy.Host` and a sequence of segments.
- The `Mutex`, `Arc` and `lazy_static` around the pool, and everything about concurrent requests: only the sequential map update is modelled. Object identity of `Pool.Client` stands for the shared `Arc`.
- The order in which `main` runs `kickstart_clients` relative to requests that may already be served: the model offers `Kickstart` as an operation on the pool and does not model the server's threads.
- `thread_id::get()`: the thread id is a natural-number parameter.
- `Client::create_unregistered_client`: creating a client is allocating a new `Pool.Client`; its network failure (an `unwrap` panic) is not modelled.
- `DnsOperations`, `DirectoryHelper` and `FileHelper`: foreign network calls. They are lookups in the `Network.Store` value: the service-home table, the listing map, and a file's content with its size. The client handed to them does not influence the result, and the store does not change during a request.
- `mime_guess::get_mime_type`: a foreign table, passed to `Handle` and `ProxyRequest` as the function `mimeOf`.
- Panics from `unwrap!`: they become the `Proxy.Outcome.Panic` outcome carrying the failing step, not an aborted thread. What the HTTP server sends after a panic is not modelled.
- Network.ReadRange: a read of the full range never fails in the model, so the `ReadFailed` error (a network failure of the reader) cannot arise.
