/** The proxy without a cache: the specification that the caching proxy refines. */
module UncachedProxy {
  import opened CStrings
  import opened HostList
  import opened Url
  import Transfer

  datatype Option<+T> = None | Some(value: T)

  /** The network outside: name resolution, and what the server at an address and port answers to
      a request text at a time. */
  datatype World = World(resolve: string -> Option<string>, origin: (string, int, string, Time) -> string)

  datatype Reply = Body(data: string) | Forbidden | NotFound | ServerError

  // ----- requests: the three words of the first line -----

  function MethodOf(request: string): string { Token(request, 0) }
  function UriOf(request: string): string { Token(request, 1) }
  function VersionOf(request: string): string { Token(request, 2) }

  predicate IsGet(request: string) { "GET" <= MethodOf(request) }

  function RequestHost(request: string): string { Target(UriOf(request)).0 }
  function RequestPort(request: string): int { Target(UriOf(request)).1 }

  // ----- the proxy -----

  function Uncached(request: string, w: World, now: Time): Reply {
    if !IsGet(request) then ServerError
    else match w.resolve(RequestHost(request)) {
      case None => ServerError
      case Some(ip) => Body(w.origin(ip, RequestPort(request), request, now))
    }
  }

  /** What a read delivers: nothing only at the end, and never more than a buffer. */
  method ReadSome(rest: string) returns (n: nat)
    ensures n == 0 <==> rest == ""
    ensures n <= |rest| && n <= Transfer.MAXBUF
  {
    n := if |rest| > Transfer.MAXBUF then Transfer.MAXBUF else |rest|;
  }

  /** The read and write loop: what comes from the server goes to the client, in whatever pieces. */
  method Forward(answer: string) returns (sent: string)
    ensures sent == answer
  {
    sent := "";
    var rest := answer;
    var n := Transfer.MAXBUF;
    while n != 0
      invariant sent + rest == answer
      invariant n == 0 ==> rest == ""
      decreases |rest|, n
    {
      n := ReadSome(rest);
      sent := sent + rest[..n];
      rest := rest[n..];
    }
  }

  method ProxyGet(request: string, w: World, now: Time) returns (reply: Reply)
    ensures reply == Uncached(request, w, now)
  {
    if IsGet(request) {
      var host, port := ParseTarget(UriOf(request));
      var entry := w.resolve(host);
      match entry {
        case Some(ip) =>
          var sent := Forward(w.origin(ip, port, request, now));
          reply := Body(sent);
        case None =>
          reply := ServerError;
      }
    } else {
      reply := ServerError;
    }
  }
}
