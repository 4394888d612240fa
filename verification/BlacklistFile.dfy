/** Reading the blacklist: one host or address per line, the last character of every line dropped. */
module BlacklistFile {
  import opened CStrings

  const LINE: nat := 99

  function IndexOfNewline(s: string): (i: nat)
    ensures i <= |s| && (i < |s| ==> s[i] == '\n')
    ensures forall j | 0 <= j < i :: s[j] != '\n'
  {
    if s == "" || s[0] == '\n' then 0 else 1 + IndexOfNewline(s[1..])
  }

  /** fgets with a buffer of 100: through the newline, but at most 99 characters. */
  function LineLength(s: string): (n: nat)
    requires s != ""
    ensures 0 < n <= |s|
  {
    var i := IndexOfNewline(s);
    var n := if i < |s| then i + 1 else i;
    if n > LINE then LINE else n
  }

  function Hosts(content: string): seq<string>
    decreases |content|
  {
    if content == "" then []
    else
      var n := LineLength(content);
      [content[..n - 1]] + Hosts(content[n..])
  }

  /** A file of complete lines. */
  function Lines(hosts: seq<string>): string {
    if hosts == [] then "" else hosts[0] + "\n" + Lines(hosts[1..])
  }

  predicate IsHostLine(host: string) {
    '\n' !in host && |host| < LINE
  }

  lemma FirstLine(host: string, rest: string)
    requires IsHostLine(host)
    ensures var content := host + "\n" + rest;
            LineLength(content) == |host| + 1 && content[..|host|] == host && content[|host| + 1..] == rest
  {
    var content := host + "\n" + rest;
    assert forall j | 0 <= j < |host| :: content[j] == host[j] && host[j] in host;
    assert content[|host|] == '\n';
  }

  lemma HostsStep(host: string, rest: string)
    requires IsHostLine(host)
    ensures Hosts(host + "\n" + rest) == [host] + Hosts(rest)
  {
    FirstLine(host, rest);
  }

  /** A line that is too long for the program's buffer: the first name is its first 98 characters, one
      character is lost, and the reading goes on behind the 99th. */
  lemma LongLine(host: string, rest: string)
    requires '\n' !in host && |host| > 98
    ensures Hosts(host + "\n" + rest) == [host[..98]] + Hosts(host[99..] + "\n" + rest)
  {
    var content := host + "\n" + rest;
    assert forall j | 0 <= j < |host| :: content[j] == host[j] && host[j] in host;
    assert content[..98] == host[..98];
    assert content[99..] == host[99..] + "\n" + rest;
  }

  /** Exactly which lines are read as they are: those of up to 98 characters. */
  lemma LineExact(host: string, rest: string)
    requires '\n' !in host
    ensures Hosts(host + "\n" + rest) == [host] + Hosts(rest) <==> |host| <= 98
  {
    if |host| <= 98 {
      HostsStep(host, rest);
    } else {
      LongLine(host, rest);
      assert ([host] + Hosts(rest))[0] == host;
    }
  }

  /** When every line, the last one too, ends in a newline, the hosts are the lines. */
  lemma {:induction false} HostsOfLines(hosts: seq<string>, rest: string)
    requires forall h | h in hosts :: IsHostLine(h)
    ensures Hosts(Lines(hosts) + rest) == hosts + Hosts(rest)
  {
    hide Hosts, IsHostLine;
    if hosts == [] {
      assert "" + rest == rest;
    } else {
      assert IsHostLine(hosts[0]);
      var later := Lines(hosts[1..]) + rest;
      HostsStep(hosts[0], later);
      HostsOfLines(hosts[1..], rest);
      Associates(hosts[0] + "\n", Lines(hosts[1..]), rest);
      assert Hosts(Lines(hosts) + rest) == [hosts[0]] + (hosts[1..] + Hosts(rest));
      assert hosts == [hosts[0]] + hosts[1..];
    }
  }

  /** A last line without a newline loses its last character: the name meant is blacklisted if
      and only if the newline is there. */
  lemma LastLineIff(hosts: seq<string>, last: string, newline: bool)
    requires (forall h | h in hosts :: IsHostLine(h)) && IsHostLine(last) && last != ""
    ensures var content := Lines(hosts) + last + (if newline then "\n" else "");
            Hosts(content) == hosts + [if newline then last else last[..|last| - 1]] &&
            (Hosts(content) == hosts + [last] <==> newline)
  {
    var tail := last + (if newline then "\n" else "");
    HostsOfLines(hosts, tail);
    Associates(Lines(hosts), last, if newline then "\n" else "");
    if newline {
      FirstLine(last, "");
      assert tail == last + "\n" + "";
    } else {
      assert tail == last && forall j | 0 <= j < |last| :: last[j] in last;
      assert IndexOfNewline(last) == |last|;
    }
    assert Hosts(tail) == [if newline then last else last[..|last| - 1]];
    assert (hosts + Hosts(tail))[|hosts|] == Hosts(tail)[0];
    assert (hosts + [last])[|hosts|] == last;
  }
}
