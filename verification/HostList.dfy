/** The proxy's shared list of hosts: a linked list that only grows at its end, searched from the
    front, behind an uninitialised head node. */
module HostList {
  import opened CStrings

  datatype Time = Time(sec: int, usec: int)

  datatype Entry = Entry(hostname: string, ip: string, filename: string, stamp: Time, blacklisted: bool)

  // What the fields of the head node compare as: no C string contains a NUL, so none equals it.
  const UNSET: string := [NUL]

  // ----- searching, on values -----

  predicate HostMatches(e: Entry, key: string) {
    e.hostname == key || e.ip == key
  }

  /** The position of the first entry with this host name or address, or the length. */
  function FirstHost(entries: seq<Entry>, key: string): (i: nat)
    ensures i <= |entries|
    ensures i < |entries| ==> HostMatches(entries[i], key)
    ensures forall j | 0 <= j < i :: !HostMatches(entries[j], key)
  {
    if entries == [] || HostMatches(entries[0], key) then 0 else 1 + FirstHost(entries[1..], key)
  }

  function FirstFile(entries: seq<Entry>, filename: string): (i: nat)
    ensures i <= |entries|
    ensures i < |entries| ==> entries[i].filename == filename
    ensures forall j | 0 <= j < i :: entries[j].filename != filename
  {
    if entries == [] || entries[0].filename == filename then 0 else 1 + FirstFile(entries[1..], filename)
  }

  /** A search that finds a node finds the same node after any number of later additions, so a
      pointer that was not null stays valid and a repeated search cannot come back empty. */
  lemma LookupStable(entries: seq<Entry>, added: seq<Entry>, key: string)
    ensures FirstHost(entries, key) < |entries| ==> FirstHost(entries + added, key) == FirstHost(entries, key)
    ensures FirstFile(entries, key) < |entries| ==> FirstFile(entries + added, key) == FirstFile(entries, key)
    ensures FirstHost(entries, key) == |entries| ==>
            FirstHost(entries + added, key) == |entries| + FirstHost(added, key)
    ensures FirstFile(entries, key) == |entries| ==>
            FirstFile(entries + added, key) == |entries| + FirstFile(added, key)
  {
    var all := entries + added;
    assert forall j | 0 <= j < |entries| :: all[j] == entries[j];
    assert forall j | 0 <= j < |added| :: all[|entries| + j] == added[j];
  }

  // ----- the list -----

  class Node {
    var next: Node?
    var hostname: string
    var ip: string
    var filename: string
    var stamp: Time
    var blacklisted: bool

    constructor (entry: Entry)
      ensures Value() == entry && next == null
    {
      next := null;
      hostname, ip, filename := entry.hostname, entry.ip, entry.filename;
      stamp, blacklisted := entry.stamp, entry.blacklisted;
    }

    function Value(): Entry
      reads this
    {
      Entry(hostname, ip, filename, stamp, blacklisted)
    }
  }

  class HostList {
    var head: Node
    ghost var spine: seq<Node>

    /** The nodes of the spine are all different and linked in order: the list is acyclic. */
    ghost predicate Valid()
      reads this, spine
    {
      spine != [] && spine[0] == head && spine[|spine| - 1].next == null &&
      (forall i | 0 <= i < |spine| - 1 :: spine[i].next == spine[i + 1]) &&
      forall i, j | 0 <= i < j < |spine| :: spine[i] != spine[j]
    }

    ghost function Entries(): (entries: seq<Entry>)
      reads this, spine
      ensures |entries| == |spine| && forall i | 0 <= i < |spine| :: entries[i] == spine[i].Value()
    {
      seq(|spine|, i requires 0 <= i < |spine| reads this, spine => spine[i].Value())
    }

    constructor ()
      ensures Valid() && fresh(spine)
      ensures Entries() == [Entry(UNSET, UNSET, UNSET, Time(0, 0), false)]
    {
      var node := new Node(Entry(UNSET, UNSET, UNSET, Time(0, 0), false));
      head := node;
      spine := [node];
    }

    /** The new node goes to the end; nothing else changes. */
    method AddHost(host: string, ip: string, file: string, blacklist: bool, now: Time)
      requires Valid()
      modifies this`spine, spine
      ensures Valid() && head == old(head)
      ensures spine[..|spine| - 1] == old(spine) && fresh(spine[|spine| - 1])
      ensures Entries() == old(Entries()) + [Entry(host, ip, file, now, blacklist)]
    {
      var current := head;
      ghost var i := 0;
      while current.next != null
        invariant 0 <= i < |spine| && current == spine[i]
        invariant i == |spine| - 1 || current.next == spine[i + 1]
        decreases |spine| - i
      {
        current := current.next;
        i := i + 1;
      }
      var node := new Node(Entry(host, ip, file, now, blacklist));
      current.next := node;
      spine := spine + [node];
      assert forall j | 0 <= j < i :: spine[j] != current;
    }

    method SearchHosts(key: string) returns (found: Node?)
      requires Valid()
      ensures var i := FirstHost(Entries(), key);
              found == if i < |spine| then spine[i] else null
    {
      var current: Node? := head;
      ghost var i := 0;
      while current != null
        invariant 0 <= i <= |spine|
        invariant current == if i < |spine| then spine[i] else null
        invariant forall j | 0 <= j < i :: !HostMatches(Entries()[j], key)
        decreases |spine| - i
      {
        if current.hostname == key {
          return current;
        }
        if current.ip == key {
          return current;
        }
        current := current.next;
        i := i + 1;
      }
      return null;
    }

    method SearchHostFiles(filename: string) returns (found: Node?)
      requires Valid()
      ensures var i := FirstFile(Entries(), filename);
              found == if i < |spine| then spine[i] else null
    {
      var current: Node? := head;
      ghost var i := 0;
      while current != null
        invariant 0 <= i <= |spine|
        invariant current == if i < |spine| then spine[i] else null
        invariant forall j | 0 <= j < i :: Entries()[j].filename != filename
        decreases |spine| - i
      {
        if current.filename == filename {
          return current;
        }
        current := current.next;
        i := i + 1;
      }
      return null;
    }

    /** A refreshed copy: only the time stamp of its node changes. */
    method Touch(node: Node, ghost i: nat, now: Time)
      requires Valid() && i < |spine| && spine[i] == node
      modifies node`stamp
      ensures Valid() && spine == old(spine)
      ensures Entries() == old(Entries())[i := old(Entries())[i].(stamp := now)]
    {
      node.stamp := now;
    }
  }
}
