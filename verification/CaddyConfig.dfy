/** Reading upstreams out of Caddy's adapted JSON (maintenance.py). */
module CaddyConfig {
  datatype Json =
    | Null
    | Bool(value: bool)
    | Number(n: real)
    | Text(s: string)
    | List(items: seq<Json>)
    | Dict(entries: seq<(string, Json)>)

  const EXPECTED_EDGE_UPSTREAM := "gateway:80"

  /** The dials of the first `n` entries of an object. */
  function EntryDials(v: Json, n: nat): set<string>
    requires v.Dict? && n <= |v.entries|
    decreases v, n
  {
    if n == 0 then {}
    else
      var (key, child) := v.entries[n - 1];
      EntryDials(v, n - 1) + (if key == "dial" && child.Text? then {child.s} else Dials(child))
  }

  function ItemDials(v: Json, n: nat): set<string>
    requires v.List? && n <= |v.items|
    decreases v, n
  {
    if n == 0 then {} else ItemDials(v, n - 1) + Dials(v.items[n - 1])
  }

  /** `extract_dials`. */
  function Dials(v: Json): set<string>
    decreases v
  {
    match v
    case Dict(entries) => EntryDials(v, |entries|)
    case List(items) => ItemDials(v, |items|)
    case _ => {}
  }

  /** The recursion as written, filling a local set. */
  method ExtractDials(v: Json) returns (dials: set<string>)
    ensures dials == Dials(v)
    decreases v
  {
    dials := {};
    match v
    case Dict(entries) =>
      for i := 0 to |entries|
        invariant dials == EntryDials(v, i)
      {
        var (key, child) := entries[i];
        if key == "dial" && child.Text? {
          dials := dials + {child.s};
        } else {
          var inner := ExtractDials(child);
          dials := dials + inner;
        }
      }
    case List(items) =>
      for i := 0 to |items|
        invariant dials == ItemDials(v, i)
      {
        var inner := ExtractDials(items[i]);
        dials := dials + inner;
      }
    case _ =>
  }

  /** Independent reading: following `path` from `v`, one position per level, ends at an object
      entry that says `"dial": d`. */
  predicate DialAt(v: Json, path: seq<nat>, d: string)
    decreases |path|
  {
    && path != []
    && (v.Dict? || v.List?)
    && path[0] < (if v.Dict? then |v.entries| else |v.items|)
    && if |path| == 1 then v.Dict? && v.entries[path[0]] == ("dial", Text(d))
       else DialAt(if v.Dict? then v.entries[path[0]].1 else v.items[path[0]], path[1..], d)
  }

  lemma Extend(v: Json, i: nat, path: seq<nat>, d: string)
    requires v.Dict? || v.List?
    requires i < (if v.Dict? then |v.entries| else |v.items|)
    requires DialAt(if v.Dict? then v.entries[i].1 else v.items[i], path, d)
    ensures DialAt(v, [i] + path, d)
  {
    assert ([i] + path)[1..] == path;
  }

  lemma {:induction false} EntryHasPath(v: Json, n: nat, d: string) returns (path: seq<nat>)
    requires v.Dict? && n <= |v.entries| && d in EntryDials(v, n)
    ensures DialAt(v, path, d)
    decreases v, n
  {
    var (key, child) := v.entries[n - 1];
    if d in EntryDials(v, n - 1) {
      path := EntryHasPath(v, n - 1, d);
    } else if key == "dial" && child.Text? {
      path := [n - 1];
    } else {
      path := HasPath(child, d);
      Extend(v, n - 1, path, d);
      path := [n - 1] + path;
    }
  }

  lemma {:induction false} ItemHasPath(v: Json, n: nat, d: string) returns (path: seq<nat>)
    requires v.List? && n <= |v.items| && d in ItemDials(v, n)
    ensures DialAt(v, path, d)
    decreases v, n
  {
    if d in ItemDials(v, n - 1) {
      path := ItemHasPath(v, n - 1, d);
    } else {
      path := HasPath(v.items[n - 1], d);
      Extend(v, n - 1, path, d);
      path := [n - 1] + path;
    }
  }

  lemma {:induction false} HasPath(v: Json, d: string) returns (path: seq<nat>)
    requires d in Dials(v)
    ensures DialAt(v, path, d)
    decreases v
  {
    match v
    case Dict(entries) => path := EntryHasPath(v, |entries|, d);
    case List(items) => path := ItemHasPath(v, |items|, d);
    case _ => path := []; assert false;
  }

  lemma {:induction false} EntryDialsGrow(v: Json, i: nat, n: nat)
    requires v.Dict? && i < n <= |v.entries|
    ensures (if v.entries[i].0 == "dial" && v.entries[i].1.Text? then {v.entries[i].1.s} else Dials(v.entries[i].1)) <= EntryDials(v, n)
    decreases n
  {
    if i < n - 1 { EntryDialsGrow(v, i, n - 1); }
  }

  lemma {:induction false} ItemDialsGrow(v: Json, i: nat, n: nat)
    requires v.List? && i < n <= |v.items|
    ensures Dials(v.items[i]) <= ItemDials(v, n)
    decreases n
  {
    if i < n - 1 { ItemDialsGrow(v, i, n - 1); }
  }

  lemma {:induction false} PathIsFound(v: Json, path: seq<nat>, d: string)
    requires DialAt(v, path, d)
    ensures d in Dials(v)
    decreases |path|
  {
    var i := path[0];
    if |path| > 1 { PathIsFound(if v.Dict? then v.entries[i].1 else v.items[i], path[1..], d); }
    if v.Dict? {
      EntryDialsGrow(v, i, |v.entries|);
    } else {
      ItemDialsGrow(v, i, |v.items|);
    }
  }

  ghost predicate HasDial(v: Json, d: string) {
    exists path :: DialAt(v, path, d)
  }

  lemma PathWitness(v: Json, path: seq<nat>, d: string)
    requires DialAt(v, path, d)
    ensures HasDial(v, d)
  {
  }

  /** Main theorem: extraction finds exactly the strings under a "dial" key, at any depth. */
  lemma DialsAreExactlyTheDialStrings(v: Json, d: string)
    ensures d in Dials(v) <==> HasDial(v, d)
  {
    if d in Dials(v) {
      var path := HasPath(v, d);
      PathWitness(v, path, d);
    } else {
      forall path: seq<nat> ensures !DialAt(v, path, d) {
        if DialAt(v, path, d) { PathIsFound(v, path, d); }
      }
    }
  }
}
