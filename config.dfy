/**
 * BaseConfig: a tree of nested PHP arrays addressed by dotted keys
 * ("logs.debug" is the "debug" entry of the "logs" array).
 *
 * A key is split on "."; `get` walks the parts and gives the default as soon
 * as a part is missing or null; `set` walks the same parts creating arrays for
 * missing (or null) intermediate parts and assigns the value at the last one;
 * `merge` sets each top-level entry in turn.
 */
module Config {
  import opened Php

  type Tree = PArray<Value>

  /** `explode('.', $key)`. */
  function Parts(key: string): (ps: seq<string>)
    ensures |ps| >= 1
  {
    Split(key, '.')
  }

  /** The value at the end of `parts`, starting from `ctx`; nothing as soon as
      a part is not set (missing, null, or its parent is not an array). */
  function Walk(ctx: Value, parts: seq<string>): Option<Value>
    decreases |parts|
  {
    if |parts| == 0 then Some(ctx)
    else if !ctx.Arr? then None
    else match Lookup(ctx.items, parts[0])
      case None => None
      case Some(v) => if v == Null then None else Walk(v, parts[1..])
  }

  /** BaseConfig::get as a function of the stored tree. */
  function GetValue(data: Tree, key: string, default: Value): Value {
    match Walk(Arr(data), Parts(key))
    case Some(v) => v
    case None => default
  }

  /** A walk from a non-null value never ends on null. */
  lemma {:induction false} WalkNeverNull(ctx: Value, parts: seq<string>)
    requires ctx != Null
    ensures Walk(ctx, parts) != Some(Null)
    decreases |parts|
  {
    if |parts| > 0 && ctx.Arr? {
      match Lookup(ctx.items, parts[0])
      case None =>
      case Some(v) => if v != Null { WalkNeverNull(v, parts[1..]); }
    }
  }

  /** `has($key)` holds exactly when the dotted path is set (and then `get`
      does not fall back on its default). */
  lemma {:induction false} HasIffSet(data: Tree, key: string)
    ensures GetValue(data, key, Null) != Null <==> Walk(Arr(data), Parts(key)).Some?
    ensures Walk(Arr(data), Parts(key)).Some? ==> forall d :: GetValue(data, key, d) == GetValue(data, key, Null)
  {
    WalkNeverNull(Arr(data), Parts(key));
  }

  /** The array `set` continues in below an intermediate part: a missing,
      null or false part gives a new empty array; a scalar gives none. */
  function Descend(cur: Option<Value>): Option<Tree> {
    if cur.None? then Some([])
    else match cur.value
      case Null => Some([])
      case Bool(b) => if b then None else Some([])
      case Arr(items) => Some(items)
      case _ => None
  }

  /**
   * BaseConfig::set as a function of the stored tree: the tree after
   * assigning `v` at `parts`, or nothing when an intermediate part holds a
   * scalar, where PHP raises "Cannot use a scalar value as an array" before
   * changing anything. A missing or null intermediate becomes a new array;
   * `false` is turned into an array by PHP's auto-vivification.
   */
  function SetPath(node: Tree, parts: seq<string>, v: Value): Option<Tree>
    requires |parts| >= 1
    decreases |parts|
  {
    if |parts| == 1 then Some(Put(node, parts[0], v))
    else
      var sub := Descend(Lookup(node, parts[0]));
      if sub.None? then None
      else match SetPath(sub.value, parts[1..], v)
        case None => None
        case Some(t) => Some(Put(node, parts[0], Arr(t)))
  }

  /** Setting inside a new, empty array always succeeds. */
  lemma {:induction false} SetPathOnEmpty(parts: seq<string>, v: Value)
    requires |parts| >= 1
    ensures SetPath([], parts, v).Some?
    decreases |parts|
  {
    if |parts| > 1 { SetPathOnEmpty(parts[1..], v); }
  }

  /** After a successful set of a non-null value, get returns that value. */
  lemma {:induction false} SetThenGet(node: Tree, parts: seq<string>, v: Value)
    requires |parts| >= 1 && v != Null
    requires SetPath(node, parts, v).Some?
    ensures Walk(Arr(SetPath(node, parts, v).value), parts) == Some(v)
    decreases |parts|
  {
    if |parts| > 1 {
      SetThenGet(Descend(Lookup(node, parts[0])).value, parts[1..], v);
    }
  }

  /** Two dotted paths that part ways at some level. */
  predicate Diverge(ps: seq<string>, qs: seq<string>)
    decreases |ps|
  {
    |ps| > 0 && |qs| > 0 && (ps[0] != qs[0] || Diverge(ps[1..], qs[1..]))
  }

  /** A walk that leaves a freshly created one-entry array finds nothing. */
  lemma {:induction false} WalkOffFreshPath(t: Tree, qs: seq<string>, ps: seq<string>, v: Value)
    requires |ps| >= 1 && SetPath([], ps, v) == Some(t)
    requires Diverge(ps, qs)
    ensures Walk(Arr(t), qs) == None
    decreases |ps|
  {
    if |ps| > 1 {
      var t' := SetPath([], ps[1..], v).value;
      if ps[0] == qs[0] {
        WalkOffFreshPath(t', qs[1..], ps[1..], v);
      }
    }
  }

  /** A walk whose first part is the key just assigned continues in the
      assigned value. */
  lemma WalkPutSame(node: Tree, k: string, x: Value, qs: seq<string>)
    requires |qs| > 0 && qs[0] == k && x != Null
    ensures Walk(Arr(Put(node, k, x)), qs) == Walk(x, qs[1..])
  {
  }

  /** A walk whose first part is another key does not see the assignment. */
  lemma WalkPutOther(node: Tree, k: string, x: Value, qs: seq<string>)
    requires |qs| > 0 && qs[0] != k
    ensures Walk(Arr(Put(node, k, x)), qs) == Walk(Arr(node), qs)
  {
    assert Lookup(Put(node, k, x), qs[0]) == Lookup(node, qs[0]);
  }

  /** A walk of two or more parts finds nothing below a part that is
      missing or holds no array. */
  lemma {:induction false} WalkPastScalar(node: Tree, qs: seq<string>)
    requires |qs| > 1
    requires Lookup(node, qs[0]).None? || !Lookup(node, qs[0]).value.Arr?
    ensures Walk(Arr(node), qs) == None
  {
    assert qs[1..][0] == qs[1];
  }

  /** A set below the top level assigns, at the first part, the array the
      rest of the path was set in. */
  lemma {:induction false} SetPathShape(node: Tree, ps: seq<string>, v: Value)
    requires |ps| > 1 && SetPath(node, ps, v).Some?
    ensures Descend(Lookup(node, ps[0])).Some?
    ensures SetPath(Descend(Lookup(node, ps[0])).value, ps[1..], v).Some?
    ensures SetPath(node, ps, v).value ==
      Put(node, ps[0], Arr(SetPath(Descend(Lookup(node, ps[0])).value, ps[1..], v).value))
  {
  }

  /** Where set creates the arrays below the first part, a path that goes the
      same way at first and then diverges found nothing before and finds
      nothing after. */
  lemma {:induction false} FreshBelowFirstPart(node: Tree, ps: seq<string>, v: Value, qs: seq<string>)
    requires |ps| > 1 && SetPath(node, ps, v).Some?
    requires |qs| > 0 && ps[0] == qs[0] && Diverge(ps[1..], qs[1..])
    requires Lookup(node, ps[0]).None? || !Lookup(node, ps[0]).value.Arr?
    ensures Walk(Arr(SetPath(Descend(Lookup(node, ps[0])).value, ps[1..], v).value), qs[1..]) == None
    ensures Walk(Arr(node), qs) == None
  {
    SetPathShape(node, ps, v);
    var sub := Descend(Lookup(node, ps[0])).value;
    assert sub == [];
    WalkOffFreshPath(SetPath(sub, ps[1..], v).value, qs[1..], ps[1..], v);
    assert |qs[1..]| > 0;
    WalkPastScalar(node, qs);
  }

  /** Setting one path leaves every path that diverges from it unchanged. */
  lemma {:induction false} SetLeavesOtherPaths(node: Tree, ps: seq<string>, v: Value, qs: seq<string>)
    requires |ps| >= 1 && SetPath(node, ps, v).Some?
    requires Diverge(ps, qs)
    ensures Walk(Arr(SetPath(node, ps, v).value), qs) == Walk(Arr(node), qs)
    decreases |ps|
  {
    if |ps| == 1 {
      assert ps[0] != qs[0];
      WalkPutOther(node, ps[0], v, qs);
    } else {
      SetPathShape(node, ps, v);
      var old0 := Lookup(node, ps[0]);
      var sub := Descend(old0).value;
      var t := SetPath(sub, ps[1..], v).value;
      if ps[0] != qs[0] {
        WalkPutOther(node, ps[0], Arr(t), qs);
      } else {
        WalkPutSame(node, ps[0], Arr(t), qs);
        assert Diverge(ps[1..], qs[1..]);
        if old0.Some? && old0.value.Arr? {
          SetLeavesOtherPaths(sub, ps[1..], v, qs[1..]);
          assert Walk(Arr(node), qs) == Walk(Arr(sub), qs[1..]);
        } else {
          FreshBelowFirstPart(node, ps, v, qs);
        }
      }
    }
  }

  /**
   * BaseConfig::merge as a function: the tree after setting the entries in
   * order, and whether every set succeeded; the first failing set stops the
   * merge, leaving the entries before it applied.
   */
  function MergeAll(data: Tree, entries: PArray<Value>): (Tree, bool)
    decreases |entries|
  {
    if |entries| == 0 then (data, true)
    else
      var (t, ok) := MergeAll(data, entries[..|entries| - 1]);
      var (k, v) := entries[|entries| - 1];
      if !ok then (t, false)
      else match SetPath(t, Parts(k), v)
        case None => (t, false)
        case Some(t') => (t', true)
  }

  /** The last entry of a merge wins for its key. */
  lemma LastMergedEntryWins(data: Tree, entries: PArray<Value>, k: string, v: Value)
    requires v != Null
    requires MergeAll(data, entries + [(k, v)]).1
    ensures GetValue(MergeAll(data, entries + [(k, v)]).0, k, Null) == v
  {
    var all := entries + [(k, v)];
    assert all[..|all| - 1] == entries;
    SetThenGet(MergeAll(data, entries).0, Parts(k), v);
  }

  /** A top-level entry replaces the whole subtree under its key: nothing of
      the earlier subtree is merged into it. */
  lemma MergeReplacesSubtree(data: Tree, entries: PArray<Value>, k: string, v: Value)
    requires '.' !in k
    requires MergeAll(data, entries + [(k, v)]).1
    ensures Lookup(MergeAll(data, entries + [(k, v)]).0, k) == Some(v)
  {
    var all := entries + [(k, v)];
    assert all[..|all| - 1] == entries;
    SplitWord(k, '.');
  }

  /** One step of a walk from part i on. */
  lemma WalkStep(ctx: Value, parts: seq<string>, i: nat)
    requires i < |parts|
    ensures !ctx.Arr? ==> Walk(ctx, parts[i..]) == None
    ensures ctx.Arr? ==> (Walk(ctx, parts[i..]) ==
      match Lookup(ctx.items, parts[i])
      case None => None
      case Some(x) => if x == Null then None else Walk(x, parts[i + 1..]))
  {
    assert parts[i..][0] == parts[i] && parts[i..][1..] == parts[i + 1..];
  }

  class BaseConfig {
    /** The stored configuration tree. */
    var data: Tree

    /** A new configuration is empty. */
    constructor ()
      ensures data == []
    {
      data := [];
    }

    /** BaseConfig::get: walks the key's parts through nested arrays with a cursor. */
    method Get(key: string, default: Value) returns (r: Value)
      ensures r == GetValue(data, key, default)
    {
      var parts := Parts(key);
      var context := Arr(data);
      var i := 0;
      while i < |parts|
        invariant 0 <= i <= |parts|
        invariant Walk(Arr(data), parts) == Walk(context, parts[i..])
      {
        WalkStep(context, parts, i);
        if !context.Arr? {
          return default;
        }
        var found := Lookup(context.items, parts[i]);
        if found.None? || found.value == Null {
          return default;
        }
        context := found.value;
        i := i + 1;
      }
      assert parts[i..] == [];
      r := context;
    }

    /** BaseConfig::has: the key's value is not null. */
    predicate Has(key: string)
      reads this
    {
      GetValue(data, key, Null) != Null
    }

    /** BaseConfig::set; `ok` is false where PHP raises an error, and then
        nothing has changed. */
    method Set(key: string, value: Value) returns (ok: bool)
      modifies this
      ensures ok == SetPath(old(data), Parts(key), value).Some?
      ensures data == if ok then SetPath(old(data), Parts(key), value).value else old(data)
      ensures ok && value != Null ==> GetValue(data, key, Null) == value
      ensures ok ==> forall q :: Diverge(Parts(key), Parts(q)) ==> GetValue(data, q, Null) == GetValue(old(data), q, Null)
    {
      var next := SetPath(data, Parts(key), value);
      if next.Some? {
        if value != Null { SetThenGet(data, Parts(key), value); }
        forall q | Diverge(Parts(key), Parts(q))
          ensures GetValue(next.value, q, Null) == GetValue(data, q, Null)
        {
          SetLeavesOtherPaths(data, Parts(key), value, Parts(q));
        }
        data := next.value;
        ok := true;
      } else {
        ok := false;
      }
    }

    /** BaseConfig::merge: sets each entry of `entries` in order. */
    method Merge(entries: PArray<Value>) returns (ok: bool)
      modifies this
      ensures (data, ok) == MergeAll(old(data), entries)
    {
      ok := true;
      var i := 0;
      while i < |entries|
        invariant 0 <= i <= |entries|
        invariant (data, ok) == MergeAll(old(data), entries[..i])
        invariant !ok ==> (data, ok) == MergeAll(old(data), entries)
      {
        var (k, v) := entries[i];
        assert entries[..i + 1][..i] == entries[..i];
        var done := Set(k, v);
        if !done {
          ok := false;
          MergeStopsAtFailure(old(data), entries, i + 1);
          return;
        }
        i := i + 1;
      }
      assert entries[..i] == entries;
    }

    /** BaseConfig::toArray. */
    function ToArray(): Tree
      reads this
    {
      data
    }
  }

  /** The array `toArray` hands out holds exactly what `has` and `get` read:
      a dotted key is set in it iff `has` holds, and `get` answers the value
      found there. */
  lemma ToArrayAnswersHas(c: BaseConfig, key: string, default: Value)
    ensures c.Has(key) <==> Walk(Arr(c.ToArray()), Parts(key)).Some?
    ensures c.Has(key) ==> Walk(Arr(c.ToArray()), Parts(key)) == Some(GetValue(c.data, key, default))
  {
    HasIffSet(c.data, key);
  }

  /** Once a merge has failed, later entries are not applied. */
  lemma {:induction false} MergeStopsAtFailure(data: Tree, entries: PArray<Value>, n: nat)
    requires n <= |entries|
    requires !MergeAll(data, entries[..n]).1
    ensures MergeAll(data, entries) == MergeAll(data, entries[..n])
    decreases |entries| - n
  {
    if n < |entries| {
      assert entries[..n + 1][..n] == entries[..n];
      MergeStopsAtFailure(data, entries, n + 1);
    } else {
      assert entries[..n] == entries;
    }
  }
}
