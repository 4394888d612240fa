/** How both proxies find out host and port of a request, and the cache's file name for it. */
module Url {
  import opened CStrings

  // ----- the target of a URI -----

  function StripPrefix(s: string, prefix: string): string {
    if prefix <= s then s[|prefix|..] else s
  }

  /** An initial "/", then "http://", then "https://" is dropped. */
  function Stripped(uri: string): string {
    StripPrefix(StripPrefix(StripPrefix(uri, "/"), "http://"), "https://")
  }

  function IndexOfSlash(s: string): (i: nat)
    ensures i <= |s| && (i < |s| ==> s[i] == '/')
    ensures forall j | 0 <= j < i :: s[j] != '/'
  {
    if s == "" || s[0] == '/' then 0 else 1 + IndexOfSlash(s[1..])
  }

  /** The first '/' or ':'. */
  function CutIndex(s: string): (i: nat)
    ensures i <= |s| && (i < |s| ==> s[i] == '/' || s[i] == ':')
    ensures forall j | 0 <= j < i :: s[j] != '/' && s[j] != ':'
  {
    if s == "" || s[0] == '/' || s[0] == ':' then 0 else 1 + CutIndex(s[1..])
  }

  /** The text between the ':' and the next '/', as atoi reads it; -1 stands for no port, so a port
      that reads as -1 is taken for 80 as well. */
  function PortOf(s: string): int {
    var cut := CutIndex(s);
    var port := if cut < |s| && s[cut] == ':' then Atoi(s[cut + 1..][..IndexOfSlash(s[cut + 1..])]) else -1;
    if port == -1 then 80 else port
  }

  function HostOf(s: string): string {
    s[..CutIndex(s)]
  }

  function Target(uri: string): (string, int) {
    (HostOf(Stripped(uri)), PortOf(Stripped(uri)))
  }

  method RemovePrefix(s: string, prefix: string) returns (t: string)
    ensures t == StripPrefix(s, prefix)
  {
    t := s;
    if prefix <= t {
      var temp := t[|prefix|..];
      t := temp;
    }
  }

  /** The second scan as written: from the ':' to the next '/', and the number in between. */
  method ReadPort(host: string, colon: nat) returns (port: int)
    requires colon < |host| && host[colon] == ':'
    ensures port == Atoi(host[colon + 1..][..IndexOfSlash(host[colon + 1..])])
  {
    var index := colon;
    while index < |host|
      invariant colon <= index <= |host|
      invariant forall j | colon <= j < index :: host[j] != '/'
    {
      if host[index] == '/' {
        break;
      }
      index := index + 1;
    }
    SlashAfter(host, colon, index);
    port := Atoi(host[colon + 1..index]);
  }

  /** The scan over the characters up to a '/' or a ':'. */
  method CutAndPort(s: string) returns (host: string, port: int)
    ensures host == HostOf(s) && port == PortOf(s)
  {
    hide Atoi, IndexOfSlash;
    port := -1;
    var last := 0;
    while last < |s|
      invariant 0 <= last <= CutIndex(s) && port == -1
      decreases |s| - last
    {
      if s[last] == '/' {
        break;
      }
      if s[last] == ':' {
        port := ReadPort(s, last);
        break;
      }
      last := last + 1;
    }
    host := s;
    if last != |host| {
      host := host[..last];
    }
    if port == -1 {
      port := 80;
    }
  }

  method ParseTarget(uri: string) returns (host: string, port: int)
    ensures host == Target(uri).0 && port == Target(uri).1
  {
    var s := RemovePrefix(uri, "/");
    s := RemovePrefix(s, "http://");
    s := RemovePrefix(s, "https://");
    host, port := CutAndPort(s);
  }

  lemma SlashAfter(s: string, colon: nat, index: nat)
    requires colon < index <= |s| && s[colon] == ':'
    requires forall j | colon <= j < index :: s[j] != '/'
    requires index < |s| ==> s[index] == '/'
    ensures IndexOfSlash(s[colon + 1..]) == index - colon - 1
    ensures s[colon + 1..][..index - colon - 1] == s[colon + 1..index]
  {
    var rest := s[colon + 1..];
    var n := IndexOfSlash(rest);
    assert forall j | 0 <= j < index - colon - 1 :: rest[j] == s[colon + 1 + j];
    assert index < |s| ==> rest[index - colon - 1] == s[index];
  }

  // ----- the round trip -----

  datatype Port = Default | Explicit(number: nat)

  /** The absolute form of a request target, or the same behind a "/". */
  datatype Form = Bare | Http | Https | SlashHttp | SlashHttps | SlashBare

  function FormPrefix(form: Form): string {
    match form
    case Bare => ""
    case Http => "http://"
    case Https => "https://"
    case SlashBare => "/"
    case SlashHttp => "/" + "http://"
    case SlashHttps => "/" + "https://"
  }

  function Authority(host: string, port: Port): string {
    host + (if port.Explicit? then ":" + Itoa(port.number) else "")
  }

  function Render(form: Form, host: string, port: Port, path: string): string {
    FormPrefix(form) + (Authority(host, port) + path)
  }

  predicate IsHost(host: string) {
    host != "" && '/' !in host && ':' !in host
  }

  predicate IsPath(path: string) {
    path == "" || path[0] == '/'
  }

  /** No host and port can be mistaken for a scheme: behind "http:" or "https:" comes a digit. */
  lemma NoScheme(host: string, port: Port, path: string)
    requires IsHost(host) && IsPath(path)
    ensures var s := Authority(host, port) + path;
            !("/" <= s) && !("http://" <= s) && !("https://" <= s)
  {
    var s := Authority(host, port) + path;
    assert s[0] == host[0] && host[0] in host;
    if port.Explicit? {
      ItoaShape(port.number);
      assert s[|host|] == ':' && s[|host| + 1] == Itoa(port.number)[0] && Itoa(port.number)[0] in Itoa(port.number);
    }
    SchemeClash(s, host, 4, "http://");
    SchemeClash(s, host, 5, "https://");
  }

  lemma SchemeClash(s: string, host: string, colon: nat, scheme: string)
    requires host != "" && ':' !in host && host <= s && colon + 1 < |scheme|
    requires scheme[colon] == ':' && scheme[colon + 1] == '/' &&
             forall j | 0 <= j < colon :: scheme[j] != ':' && scheme[j] != '/'
    requires |host| < |s| ==> s[|host|] == '/' || (s[|host|] == ':' && |host| + 1 < |s| && s[|host| + 1] != '/')
    ensures !(scheme <= s)
  {
    var n := |host|;
    assert forall j | 0 <= j < n :: host[j] == s[j] && host[j] in host;
  }

  lemma CutAt(s: string, n: nat)
    requires n <= |s| && (forall j | 0 <= j < n :: s[j] != '/' && s[j] != ':')
    requires n < |s| ==> s[n] == '/' || s[n] == ':'
    ensures CutIndex(s) == n
  {
  }

  lemma HostHasNoCut(host: string, rest: string)
    requires IsHost(host) && (rest != "" ==> rest[0] == '/' || rest[0] == ':')
    ensures CutIndex(host + rest) == |host| && HostOf(host + rest) == host
  {
    var s := host + rest;
    assert forall j | 0 <= j < |host| :: s[j] == host[j] && host[j] in host;
    assert rest != "" ==> s[|host|] == rest[0];
    CutAt(s, |host|);
    assert s[..|host|] == host;
  }

  lemma CutOfAuthority(host: string, port: Port, path: string)
    requires IsHost(host) && IsPath(path)
    ensures var s := Authority(host, port) + path;
            HostOf(s) == host && PortOf(s) == if port.Explicit? then port.number else 80
  {
    hide CutIndex, Atoi, Itoa, IndexOfSlash, HostOf;
    var s := Authority(host, port) + path;
    if port.Explicit? {
      var digits := Itoa(port.number);
      ItoaShape(port.number);
      AtoiOfItoa(port.number);
      assert s == host + (":" + digits + path);
      HostHasNoCut(host, ":" + digits + path);
      assert s[|host|] == ':' && s[|host| + 1..] == digits + path;
      SlashBehindDigits(digits, path);
    } else {
      assert s == host + path;
      HostHasNoCut(host, path);
      assert path != "" ==> s[|host|] == path[0];
    }
  }

  lemma SlashBehindDigits(digits: string, path: string)
    requires (forall c | c in digits :: IsDigit(c)) && IsPath(path)
    ensures IndexOfSlash(digits + path) == |digits| && (digits + path)[..|digits|] == digits
  {
    var s := digits + path;
    var n := IndexOfSlash(s);
    assert forall j | 0 <= j < |digits| :: s[j] == digits[j] && digits[j] in digits;
    assert path != "" ==> s[|digits|] == path[0];
  }

  /** The URL round trip: for every host without '/' or ':', every port and every path, in the bare
      and both scheme forms and behind a "/", the scans recover exactly host and port. The
      default port is 80 in every form, also for https. (The program's atoi holds ports that fit
      an int; the model's has no limit.) */
  lemma UrlRoundTrip(form: Form, host: string, port: Port, path: string)
    requires IsHost(host) && IsPath(path)
    ensures Target(Render(form, host, port, path)) == (host, if port.Explicit? then port.number else 80)
  {
    var s := Authority(host, port) + path;
    NoScheme(host, port, path);
    StripForm(form, s);
    CutOfAuthority(host, port, path);
  }

  /** The port is whatever atoi makes of the text between the ':' and the next '/', except that -1
      counts as none. */
  lemma PortText(host: string, text: string, path: string)
    requires IsHost(host) && IsPath(path) && '/' !in text
    ensures var s := host + (":" + (text + path));
            HostOf(s) == host && PortOf(s) == if Atoi(text) == -1 then 80 else Atoi(text)
  {
    var s := host + (":" + (text + path));
    var n := CutIndex(s);
    assert forall j | 0 <= j < |host| :: s[j] == host[j] && host[j] in host;
    assert s[|host|] == ':';
    assert n == |host| && s[n + 1..] == text + path;
    var k := IndexOfSlash(text + path);
    assert forall j | 0 <= j < |text| :: (text + path)[j] == text[j] && text[j] in text;
    assert path != "" ==> (text + path)[|text|] == '/';
    assert k == |text| && (text + path)[..k] == text;
  }

  lemma StripForm(form: Form, s: string)
    requires !("/" <= s) && !("http://" <= s) && !("https://" <= s)
    ensures Stripped(FormPrefix(form) + s) == s
  {
    var uri := FormPrefix(form) + s;
    if form.SlashBare? || form.SlashHttp? || form.SlashHttps? {
      var bare := match form case SlashBare => Bare case SlashHttp => Http case _ => Https;
      assert uri == "/" + (FormPrefix(bare) + s);
      assert StripPrefix(uri, "/") == FormPrefix(bare) + s;
      StripScheme(bare, s);
    } else {
      assert form.Bare? ==> uri == s;
      assert form.Http? || form.Https? ==> uri[0] == 'h';
      assert StripPrefix(uri, "/") == uri;
      StripScheme(form, s);
    }
  }

  lemma StripScheme(form: Form, s: string)
    requires form.Bare? || form.Http? || form.Https?
    requires !("http://" <= s) && !("https://" <= s)
    ensures StripPrefix(StripPrefix(FormPrefix(form) + s, "http://"), "https://") == s
  {
    var t := FormPrefix(form) + s;
    if form.Bare? {
      assert t == s;
    } else if form.Http? {
      assert t[..7] == "http://" && t[7..] == s;
    } else {
      assert t[..8] == "https://" && t[8..] == s && t[4] == 's' && "http://"[4] == ':';
    }
  }

  // ----- the file name of the cache -----

  function MangleChar(c: char): char {
    if c == '.' || c == ':' || c == '/' then '_' else c
  }

  function Mangle(uri: string): string {
    seq(|uri|, i requires 0 <= i < |uri| => MangleChar(uri[i]))
  }

  method MangleInPlace(filename: array<char>)
    modifies filename
    ensures filename[..] == Mangle(old(filename[..]))
  {
    for i := 0 to filename.Length
      invariant forall j | 0 <= j < filename.Length ::
                  filename[j] == if j < i then MangleChar(old(filename[j])) else old(filename[j])
    {
      if filename[i] == '.' || filename[i] == ':' || filename[i] == '/' {
        filename[i] := '_';
      }
    }
  }

  predicate HasSpecial(s: string) {
    '.' in s || ':' in s || '/' in s
  }

  /** The names the cache can ask for are exactly those without the three characters. */
  lemma MangledIff(name: string)
    ensures (exists uri :: Mangle(uri) == name) <==> !HasSpecial(name)
  {
    if !HasSpecial(name) {
      assert forall i | 0 <= i < |name| :: name[i] in name;
      assert Mangle(name) == name;
    }
    if uri :| Mangle(uri) == name {
      MangledHasNoSpecial(uri);
    }
  }

  lemma MangledHasNoSpecial(uri: string)
    ensures !HasSpecial(Mangle(uri))
  {
  }
}
