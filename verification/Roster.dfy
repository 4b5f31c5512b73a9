/**
 The heartbeat roster of the join coordinator: one stored entry per sanitised peer name. The class
 is proved to refine the log of everything that was ever recorded.
 */
module Roster {
  import opened Sorting
  import StringOrder
  import opened Options

  datatype Heartbeat = Heartbeat(peer: string, token: string, timestamp: int, capabilities: string)

  /** The file name of a peer: letters, digits, dash, underscore and dot stay, the rest becomes underscores. */
  function SafeName(peer: string, isAlnum: char -> bool): (name: string)
    ensures |name| == |peer|
    ensures forall i :: 0 <= i < |name| ==> isAlnum(name[i]) || name[i] in "-_."
    ensures forall i :: 0 <= i < |name| && (isAlnum(peer[i]) || peer[i] in "-_.") ==> name[i] == peer[i]
    ensures forall i :: 0 <= i < |name| && name[i] != peer[i] ==> name[i] == '_'
  {
    seq(|peer|, i requires 0 <= i < |peer| => if isAlnum(peer[i]) || peer[i] in "-_." then peer[i] else '_')
  }

  /** The last heartbeat recorded under a name. */
  ghost function Latest(log: seq<Heartbeat>, name: string, isAlnum: char -> bool): (r: Option<Heartbeat>) {
    if log == [] then None
    else if SafeName(log[|log| - 1].peer, isAlnum) == name then Some(log[|log| - 1])
    else Latest(log[..|log| - 1], name, isAlnum)
  }

  /** A heartbeat that counts towards the roster of a token at a time. */
  predicate Fresh(h: Heartbeat, token: string, now: int, maxAge: int) {
    h.token == token && 0 <= now - h.timestamp <= maxAge
  }

  lemma {:induction false} LatestNamed(log: seq<Heartbeat>, name: string, isAlnum: char -> bool)
    requires Latest(log, name, isAlnum).Some?
    ensures Latest(log, name, isAlnum).value in log
    ensures SafeName(Latest(log, name, isAlnum).value.peer, isAlnum) == name
  {
    if SafeName(log[|log| - 1].peer, isAlnum) != name {
      LatestNamed(log[..|log| - 1], name, isAlnum);
    }
  }

  /** The roster that a log determines: the latest heartbeat of each name, if it is fresh. */
  ghost predicate OnRoster(log: seq<Heartbeat>, isAlnum: char -> bool, token: string, now: int, maxAge: int,
                           h: Heartbeat)
  {
    Latest(log, SafeName(h.peer, isAlnum), isAlnum) == Some(h) && Fresh(h, token, now, maxAge)
  }

  /** The latest heartbeat under a name is the last one in the log whose peer has that name. */
  lemma {:induction false} LatestMeans(log: seq<Heartbeat>, name: string, isAlnum: char -> bool, k: nat)
    requires k < |log| && SafeName(log[k].peer, isAlnum) == name
    requires forall j :: k < j < |log| ==> SafeName(log[j].peer, isAlnum) != name
    ensures Latest(log, name, isAlnum) == Some(log[k])
  {
    hide SafeName;
    if k < |log| - 1 {
      LatestMeans(log[..|log| - 1], name, isAlnum, k);
    }
  }

  lemma {:induction false} LatestPlace(log: seq<Heartbeat>, name: string, isAlnum: char -> bool) returns (k: nat)
    requires Latest(log, name, isAlnum).Some?
    ensures k < |log| && SafeName(log[k].peer, isAlnum) == name && Latest(log, name, isAlnum) == Some(log[k])
    ensures forall j :: k < j < |log| ==> SafeName(log[j].peer, isAlnum) != name
  {
    hide SafeName;
    var n := |log| - 1;
    if SafeName(log[n].peer, isAlnum) == name {
      k := n;
    } else {
      k := LatestPlace(log[..n], name, isAlnum);
    }
  }

  /** Who is on the roster, in terms of the log: a heartbeat that no later one of the same name replaces,
      of the right token, and not older than allowed nor from the future. */
  lemma OnRosterMeans(log: seq<Heartbeat>, isAlnum: char -> bool, token: string, now: int, maxAge: int, h: Heartbeat)
    ensures OnRoster(log, isAlnum, token, now, maxAge, h) <==>
      && h.token == token && h.timestamp <= now && now - h.timestamp <= maxAge
      && exists k :: 0 <= k < |log| && log[k] == h
           && forall j :: k < j < |log| ==> SafeName(log[j].peer, isAlnum) != SafeName(h.peer, isAlnum)
  {
    hide SafeName, Latest;
    var name := SafeName(h.peer, isAlnum);
    if Latest(log, name, isAlnum) == Some(h) {
      var k := LatestPlace(log, name, isAlnum);
      assert log[k] == h;
    }
    if k :| 0 <= k < |log| && log[k] == h && (forall j :: k < j < |log| ==> SafeName(log[j].peer, isAlnum) != name) {
      LatestMeans(log, name, isAlnum, k);
    }
  }

  /** No name is on the rosters of two tokens, at any times. */
  lemma RostersDisjoint(log: seq<Heartbeat>, isAlnum: char -> bool, g: Heartbeat, h: Heartbeat,
                        s: string, t: string, nowS: int, nowT: int, maxS: int, maxT: int)
    requires s != t && OnRoster(log, isAlnum, s, nowS, maxS, g) && OnRoster(log, isAlnum, t, nowT, maxT, h)
    ensures SafeName(g.peer, isAlnum) != SafeName(h.peer, isAlnum)
  {
  }

  predicate ByPeer(a: Heartbeat, b: Heartbeat) { StringOrder.Le(a.peer, b.peer) }

  /** Each file holds the latest heartbeat recorded under its name. */
  ghost predicate Represents(files: map<string, Heartbeat>, log: seq<Heartbeat>, isAlnum: char -> bool) {
    forall name :: if Latest(log, name, isAlnum).Some?
                   then name in files && files[name] == Latest(log, name, isAlnum).value
                   else name !in files
  }

  /** The fresh ones among the files with these names. */
  function Select(names: seq<string>, files: map<string, Heartbeat>, token: string, now: int, maxAge: int)
    : (r: seq<Heartbeat>)
  {
    if names == [] then []
    else
      var n := |names| - 1;
      Select(names[..n], files, token, now, maxAge)
      + (if names[n] in files && Fresh(files[names[n]], token, now, maxAge) then [files[names[n]]] else [])
  }

  lemma {:induction false} SelectMeans(names: seq<string>, files: map<string, Heartbeat>, token: string, now: int,
                                       maxAge: int, h: Heartbeat)
    ensures h in Select(names, files, token, now, maxAge) <==>
      Fresh(h, token, now, maxAge) && exists k :: 0 <= k < |names| && names[k] in files && files[names[k]] == h
  {
    hide Fresh;
    if names != [] {
      var n := |names| - 1;
      SelectMeans(names[..n], files, token, now, maxAge, h);
      if k :| 0 <= k < n && names[..n][k] in files && files[names[..n][k]] == h {
        assert names[k] in files && files[names[k]] == h;
      }
      if k :| 0 <= k < |names| && names[k] in files && files[names[k]] == h {
        assert k < n ==> names[..n][k] == names[k];
      }
    }
  }

  lemma RepresentsNamed(files: map<string, Heartbeat>, log: seq<Heartbeat>, isAlnum: char -> bool, name: string)
    requires Represents(files, log, isAlnum) && name in files
    ensures SafeName(files[name].peer, isAlnum) == name && Latest(log, name, isAlnum) == Some(files[name])
  {
    hide SafeName;
    assert Latest(log, name, isAlnum).Some?;
    LatestNamed(log, name, isAlnum);
  }

  ghost predicate DistinctPeers(s: seq<Heartbeat>) {
    forall i, j :: 0 <= i < j < |s| ==> s[i].peer != s[j].peer
  }

  /** No two selected heartbeats come from the same peer. */
  lemma {:induction false} SelectDistinct(names: seq<string>, files: map<string, Heartbeat>, log: seq<Heartbeat>,
                                          isAlnum: char -> bool, token: string, now: int, maxAge: int)
    requires NoDup(names) && Represents(files, log, isAlnum)
    ensures DistinctPeers(Select(names, files, token, now, maxAge))
  {
    hide Fresh, SafeName, Represents;
    if names != [] {
      var n := |names| - 1;
      SelectDistinct(names[..n], files, log, isAlnum, token, now, maxAge);
      var r := Select(names[..n], files, token, now, maxAge);
      if names[n] in files {
        RepresentsNamed(files, log, isAlnum, names[n]);
        forall i | 0 <= i < |r| ensures r[i].peer != files[names[n]].peer {
          SelectMeans(names[..n], files, token, now, maxAge, r[i]);
          var k :| 0 <= k < n && names[..n][k] in files && files[names[..n][k]] == r[i];
          RepresentsNamed(files, log, isAlnum, names[k]);
          assert names[k] != names[n];
        }
      }
      var all := Select(names, files, token, now, maxAge);
      assert forall i :: 0 <= i < |r| ==> all[i] == r[i];
      assert |all| > |r| ==> names[n] in files && all == r + [files[names[n]]];
    }
  }

  lemma SelectIsRoster(names: seq<string>, files: map<string, Heartbeat>, log: seq<Heartbeat>, isAlnum: char -> bool,
                       token: string, now: int, maxAge: int, h: Heartbeat)
    requires Represents(files, log, isAlnum) && forall x :: x in names <==> x in files
    ensures h in Select(names, files, token, now, maxAge) <==> OnRoster(log, isAlnum, token, now, maxAge, h)
  {
    hide Fresh, SafeName, Select;
    SelectMeans(names, files, token, now, maxAge, h);
    if k :| 0 <= k < |names| && names[k] in files && files[names[k]] == h {
      RepresentsNamed(files, log, isAlnum, names[k]);
    }
    if OnRoster(log, isAlnum, token, now, maxAge, h) {
      var name := SafeName(h.peer, isAlnum);
      assert Latest(log, name, isAlnum).Some?;
      assert name in names;
      var k :| 0 <= k < |names| && names[k] == name;
      assert names[k] in files && files[names[k]] == h;
    }
  }

  lemma SortedRoster(active: seq<Heartbeat>)
    requires DistinctPeers(active)
    ensures var r := SortBy(active, ByPeer);
      && Sorted(r, ByPeer) && (forall h :: h in r <==> h in active)
      && DistinctPeers(r)
  {
    var r := SortBy(active, ByPeer);
    ByPeerOrder();
    SortBySorted(active, ByPeer);
    SameElements(r, active);
    assert NoDup(active);
    NoDupPermutation(active, r);
    hide ByPeer, SortBy, Sorted;
    forall i, j | 0 <= i < j < |r| ensures r[i].peer != r[j].peer {
      assert r[i] in active && r[j] in active;
    }
  }

  lemma InPeerOrder(roster: seq<Heartbeat>)
    requires Sorted(roster, ByPeer) && DistinctPeers(roster)
    ensures forall i, j :: 0 <= i < j < |roster| ==>
      roster[i].peer != roster[j].peer && StringOrder.Le(roster[i].peer, roster[j].peer)
  {
    hide StringOrder.Le;
    forall i, j | 0 <= i < j < |roster| ensures StringOrder.Le(roster[i].peer, roster[j].peer) {
      assert ByPeer(roster[i], roster[j]);
    }
  }

  lemma ByPeerOrder()
    ensures TotalPreorder(ByPeer)
  {
    StringOrder.LeOrder();
    hide StringOrder.Le;
  }

  class JoinState {
    const isAlnum: char -> bool
    var files: map<string, Heartbeat>
    ghost var log: seq<Heartbeat>

    ghost predicate Valid()
      reads this
    {
      Represents(files, log, isAlnum)
    }

    constructor (isAlnum: char -> bool)
      ensures Valid() && log == [] && files == map[] && this.isAlnum == isAlnum
    {
      this.isAlnum := isAlnum;
      files, log := map[], [];
    }

    /** Overwrites the entry of the peer's name. */
    method Record(token: string, peer: string, capabilities: string, now: int) returns (h: Heartbeat)
      requires Valid()
      modifies this
      ensures Valid() && h == Heartbeat(peer, token, now, capabilities)
      ensures log == old(log) + [h]
      ensures files == old(files)[SafeName(peer, isAlnum) := h]
    {
      h := Heartbeat(peer, token, now, capabilities);
      files := files[SafeName(peer, isAlnum) := h];
      log := log + [h];
      assert log[..|log| - 1] == old(log);
    }

    /** The active roster of a token: exactly the latest heartbeats that are fresh, in strictly
        increasing order of peer id. */
    method LoadActive(token: string, now: int, maxAge: int) returns (roster: seq<Heartbeat>)
      requires Valid()
      ensures forall h :: h in roster <==> OnRoster(log, isAlnum, token, now, maxAge, h)
      ensures forall i, j :: 0 <= i < j < |roster| ==>
        roster[i].peer != roster[j].peer && StringOrder.Le(roster[i].peer, roster[j].peer)
    {
      var names := StringOrder.SortedKeys(files.Keys);
      var active: seq<Heartbeat> := [];
      for n := 0 to |names|
        invariant active == Select(names[..n], files, token, now, maxAge)
      {
        assert names[n] in names;
        assert names[..n + 1][..n] == names[..n];
        var payload := files[names[n]];
        if payload.token == token && 0 <= now - payload.timestamp <= maxAge {
          active := active + [payload];
        }
      }
      assert names[..|names|] == names;
      hide *;
      forall h ensures h in active <==> OnRoster(log, isAlnum, token, now, maxAge, h) {
        SelectIsRoster(names, files, log, isAlnum, token, now, maxAge, h);
      }
      SelectDistinct(names, files, log, isAlnum, token, now, maxAge);
      SortedRoster(active);
      roster := SortBy(active, ByPeer);
      InPeerOrder(roster);
    }
  }
}
