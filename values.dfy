/**
 * The dynamically typed values a code snippet can return, as the publisher
 * distinguishes them: `str`, `list`, `tuple`, `set`, `dict`, and everything
 * else (numbers, None, frozensets, objects), which it passes through.
 */
module Values {
  import opened Paths

  /**
   * A `Set` lists its elements in the order Python iterates them; a `Dict`
   * lists its items; `Other` carries an opaque description of the value.
   */
  datatype Value =
    | Str(s: string)
    | List(items: seq<Value>)
    | Tuple(items: seq<Value>)
    | Set(items: seq<Value>)
    | Dict(entries: seq<(Value, Value)>)
    | Other(description: string)

  /** The raw test the publisher applies to every string it visits. */
  predicate IsScratchPath(s: string)
  {
    StartsWith(s, "/tmp/")
  }

  predicate Distinct<T(==)>(xs: seq<T>)
  {
    forall i, j :: 0 <= i < j < |xs| ==> xs[i] != xs[j]
  }

  function Keys(es: seq<(Value, Value)>): (ks: seq<Value>)
    ensures |ks| == |es|
    ensures forall i :: 0 <= i < |es| ==> ks[i] == es[i].0
  {
    if es == [] then [] else Keys(es[..|es| - 1]) + [es[|es| - 1].0]
  }

  /** Values Python can build: set elements and dict keys are distinct. */
  predicate WellFormed(v: Value)
    decreases v
  {
    match v
    case Str(_) => true
    case List(items) => AllWellFormed(items)
    case Tuple(items) => AllWellFormed(items)
    case Set(items) => Distinct(items) && AllWellFormed(items)
    case Dict(es) => Distinct(Keys(es)) && AllWellFormedValues(es)
    case Other(_) => true
  }

  predicate AllWellFormed(items: seq<Value>)
    decreases items
  {
    forall i :: 0 <= i < |items| ==> WellFormed(items[i])
  }

  predicate AllWellFormedValues(es: seq<(Value, Value)>)
    decreases es
  {
    forall i :: 0 <= i < |es| ==> EntryWellFormed(es[i])
  }

  predicate EntryWellFormed(e: (Value, Value))
    decreases e
  {
    WellFormed(e.1)
  }

  /** No set anywhere in the value: rebuilding keeps every element in place. */
  predicate SetFree(v: Value)
    decreases v
  {
    match v
    case Str(_) => true
    case List(items) => AllSetFree(items)
    case Tuple(items) => AllSetFree(items)
    case Set(_) => false
    case Dict(es) => EntriesSetFree(es)
    case Other(_) => true
  }

  predicate AllSetFree(items: seq<Value>)
    decreases items
  {
    forall i :: 0 <= i < |items| ==> SetFree(items[i])
  }

  predicate EntriesSetFree(es: seq<(Value, Value)>)
    decreases es
  {
    forall i :: 0 <= i < |es| ==> EntrySetFree(es[i])
  }

  predicate EntrySetFree(e: (Value, Value))
    decreases e
  {
    SetFree(e.1)
  }

  /**
   * The strings the publisher inspects, in the order it visits them:
   * string elements and dict values, depth first; dict keys are never
   * visited.
   */
  function Visited(v: Value): seq<string>
    decreases v
  {
    match v
    case Str(s) => [s]
    case List(items) => VisitedItems(items)
    case Tuple(items) => VisitedItems(items)
    case Set(items) => VisitedItems(items)
    case Dict(es) => VisitedEntries(es)
    case Other(_) => []
  }

  function VisitedItems(items: seq<Value>): seq<string>
    decreases items
  {
    if items == [] then []
    else VisitedItems(items[..|items| - 1]) + Visited(items[|items| - 1])
  }

  function VisitedEntries(es: seq<(Value, Value)>): seq<string>
    decreases es
  {
    if es == [] then []
    else VisitedEntries(es[..|es| - 1]) + VisitedEntry(es[|es| - 1])
  }

  function VisitedEntry(e: (Value, Value)): seq<string>
    decreases e
  {
    Visited(e.1)
  }

  /** The visited strings that the publisher publishes (or fails on), in visit order. */
  function ScratchPaths(ss: seq<string>): (r: seq<string>)
    ensures forall i :: 0 <= i < |r| ==> IsScratchPath(r[i])
    ensures |r| <= |ss|
  {
    if ss == [] then []
    else ScratchPaths(ss[..|ss| - 1]) + (if IsScratchPath(ss[|ss| - 1]) then [ss[|ss| - 1]] else [])
  }

  lemma {:induction false} ScratchPathsAppend(a: seq<string>, b: seq<string>)
    ensures ScratchPaths(a + b) == ScratchPaths(a) + ScratchPaths(b)
    decreases |b|
  {
    if b == [] {
      assert a + b == a;
    } else {
      var b' := b[..|b| - 1];
      assert (a + b)[..|a + b| - 1] == a + b';
      assert (a + b)[|a + b| - 1] == b[|b| - 1];
      ScratchPathsAppend(a, b');
    }
  }

  /** The filter is empty exactly when no visited string is a scratch path. */
  lemma {:induction false} ScratchPathsMembers(ss: seq<string>)
    ensures ScratchPaths(ss) == [] <==> forall i :: 0 <= i < |ss| ==> !IsScratchPath(ss[i])
    decreases |ss|
  {
    if ss != [] {
      ScratchPathsMembers(ss[..|ss| - 1]);
      assert forall i :: 0 <= i < |ss| - 1 ==> ss[..|ss| - 1][i] == ss[i];
    }
  }

  lemma VisitedItemsSnoc(xs: seq<Value>, x: Value)
    ensures VisitedItems(xs + [x]) == VisitedItems(xs) + Visited(x)
  {
    assert (xs + [x])[..|xs|] == xs;
  }

  lemma VisitedEntriesSnoc(es: seq<(Value, Value)>, e: (Value, Value))
    ensures VisitedEntries(es + [e]) == VisitedEntries(es) + VisitedEntry(e)
  {
    assert (es + [e])[..|es|] == es;
  }

  lemma SetFreePrefix(items: seq<Value>, n: nat)
    requires AllSetFree(items) && n <= |items|
    ensures AllSetFree(items[..n])
  {
    assert forall i :: 0 <= i < n ==> items[..n][i] == items[i];
  }

  lemma EntriesSetFreePrefix(es: seq<(Value, Value)>, n: nat)
    requires EntriesSetFree(es) && n <= |es|
    ensures EntriesSetFree(es[..n])
  {
    assert forall i :: 0 <= i < n ==> es[..n][i] == es[i];
  }

  /** A scratch path at position `j` is the scratch path numbered by how many come before it. */
  lemma ScratchPathIndex(ss: seq<string>, j: nat)
    requires j < |ss| && IsScratchPath(ss[j])
    ensures |ScratchPaths(ss[..j])| < |ScratchPaths(ss)|
    ensures ScratchPaths(ss)[|ScratchPaths(ss[..j])|] == ss[j]
  {
    assert ss == ss[..j] + ([ss[j]] + ss[j + 1..]);
    ScratchPathsAppend(ss[..j], [ss[j]] + ss[j + 1..]);
    ScratchPathsAppend([ss[j]], ss[j + 1..]);
    assert [ss[j]][..0] == [];
    assert ScratchPaths([ss[j]]) == [ss[j]];
  }

  /** The scratch paths of a value, in the order the publisher meets them. */
  function TmpPaths(v: Value): seq<string>
  {
    ScratchPaths(Visited(v))
  }
}
