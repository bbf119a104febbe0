/** Aliases resolved in place, with a memo in every entry and a set of the keys being visited. */
module AliasResolution {
  import opened Wrappers
  import opened AliasChains

  class Entry {
    const raw: Raw
    var resolved: Option<Raw>

    constructor (raw: Raw)
      ensures this.raw == raw && resolved == None
    {
      this.raw := raw;
      resolved := None;
    }
  }

  type TokenMap = map<TokenKey, Entry>

  type Memo = map<TokenKey, Option<Raw>>

  function RawsOf(m: TokenMap): Raws {
    map k | k in m :: m[k].raw
  }

  ghost function MemoOf(m: TokenMap): Memo
    reads m.Values
  {
    map k | k in m :: m[k].resolved
  }

  /** No entry stands under two keys. */
  ghost predicate Separate(m: TokenMap) {
    forall j, k :: j in m && k in m && j != k ==> m[j] != m[k]
  }

  /** A memo that is not being worked on is right, and agrees with the next one on a chain
      that never ends. */
  ghost predicate Settled(raws: Raws, memo: Memo, k: TokenKey)
    requires memo.Keys == raws.Keys
  {
    k in memo && memo[k].Some? ==>
      && Right(raws, k, memo[k].value)
      && (Loops(raws, k) ==> Next(raws, k).Some? && memo[Next(raws, k).value] == memo[k])
  }

  ghost predicate AllSettled(raws: Raws, memo: Memo, seen: set<TokenKey>)
    requires memo.Keys == raws.Keys
  {
    forall k :: k !in seen ==> Settled(raws, memo, k)
  }

  /** The keys being visited lead, one to the next, to `key`, and none has a memo yet. */
  ghost predicate Pending(raws: Raws, memo: Memo, seen: set<TokenKey>, key: TokenKey)
    requires memo.Keys == raws.Keys
  {
    forall s :: s in seen ==>
      && s in raws && memo[s].None? && AliasTarget(raws[s]).Some?
      && AliasTarget(raws[s]).value in seen + {key}
      && (key in raws ==> Reaches(raws, s, key))
  }

  /** What visiting `key` makes of the memos. */
  ghost predicate Visited(raws: Raws, before: Memo, after: Memo, seen: set<TokenKey>, key: TokenKey, v: Option<Raw>)
    requires before.Keys == after.Keys == raws.Keys
  {
    && AllSettled(raws, after, seen)
    && (key !in raws ==> v == None && after == before)
    && (key in raws ==> v.Some? && after[key] == v && Right(raws, key, v.value))
    && (forall s :: s in seen && s in raws ==>
        after[s] == before[s] || (after[s] == v && key in raws && Loops(raws, key)))
    && (forall k :: k in raws && before[k].Some? ==> after[k] == before[k])
  }

  lemma LoopsEnd(raws: Raws, k: TokenKey)
    requires Next(raws, k).None?
    ensures !Loops(raws, k)
  {
    if Loops(raws, k) { LoopsGoesOn(raws, k); }
  }

  /** A token with its memo already. */
  lemma VisitMemo(raws: Raws, memo: Memo, seen: set<TokenKey>, key: TokenKey)
    requires memo.Keys == raws.Keys && key in raws && memo[key].Some?
    requires AllSettled(raws, memo, seen) && Pending(raws, memo, seen, key)
    ensures Visited(raws, memo, memo, seen, key, memo[key])
  {
    assert Settled(raws, memo, key);
  }

  /** A token whose value is its own. */
  lemma VisitEnd(raws: Raws, memo: Memo, seen: set<TokenKey>, key: TokenKey)
    requires memo.Keys == raws.Keys && key in raws && memo[key].None? && AliasTarget(raws[key]).None?
    requires AllSettled(raws, memo, seen) && Pending(raws, memo, seen, key)
    ensures Visited(raws, memo, memo[key := Some(raws[key])], seen, key, Some(raws[key]))
  {
    EndIsRight(raws, key);
    LoopsEnd(raws, key);
    KeepsSettled(raws, memo, seen, key, raws[key]);
  }

  lemma ComesBack(raws: Raws, memo: Memo, seen: set<TokenKey>, key: TokenKey)
    requires memo.Keys == raws.Keys && key in seen && Pending(raws, memo, seen, key)
    ensures key in raws && memo[key].None? && Loops(raws, key) && Right(raws, key, raws[key])
  {
    forall s | s in seen ensures Next(raws, s).Some? && Next(raws, s).value in seen {
    }
    ClosedLoops(raws, seen, key);
    CycleIsRight(raws, key);
  }

  /** A token that is being visited: the chain has come back to it. */
  lemma {:induction false} VisitAgain(raws: Raws, memo: Memo, seen: set<TokenKey>, key: TokenKey)
    requires memo.Keys == raws.Keys && key in seen
    requires AllSettled(raws, memo, seen) && Pending(raws, memo, seen, key)
    ensures Visited(raws, memo, memo[key := Some(raws[key])], seen, key, Some(raws[key]))
  {
    ComesBack(raws, memo, seen, key);
    KeepsSettled(raws, memo, seen, key, raws[key]);
  }

  /** The state in which the next token is visited. */
  lemma PendingStep(raws: Raws, memo: Memo, seen: set<TokenKey>, key: TokenKey)
    requires memo.Keys == raws.Keys && key in raws && memo[key].None? && AliasTarget(raws[key]).Some?
    requires AllSettled(raws, memo, seen) && Pending(raws, memo, seen, key)
    ensures var t := AliasTarget(raws[key]).value;
      Pending(raws, memo, seen + {key}, t) && AllSettled(raws, memo, seen + {key})
  {
    var t := AliasTarget(raws[key]).value;
    forall s | s in seen + {key} && t in raws ensures Reaches(raws, s, t) {
      ReachesStep(raws, s, key);
    }
  }

  /** After the next token was visited. */
  lemma {:induction false} VisitStep(raws: Raws, before: Memo, inner: Memo, seen: set<TokenKey>, key: TokenKey,
      v: Option<Raw>, mine: Raw)
    requires before.Keys == inner.Keys == raws.Keys && key in raws && key !in seen && before[key].None?
    requires AliasTarget(raws[key]).Some? && Pending(raws, before, seen, key)
    requires Visited(raws, before, inner, seen + {key}, AliasTarget(raws[key]).value, v)
    requires mine == if v.None? || v.value.Null? then raws[key] else v.value
    ensures Visited(raws, before, inner[key := Some(mine)], seen, key, Some(mine))
  {
    var t := AliasTarget(raws[key]).value;
    if t in raws {
      StepIsRight(raws, key, v.value);
      LoopsStep(raws, key);
      if Loops(raws, t) { LoopValueIsAlias(raws, t, v.value); }
    } else {
      EndIsRight(raws, key);
      LoopsEnd(raws, key);
    }
    KeepsSettled(raws, inner, seen + {key}, key, mine);
    assert AllSettled(raws, inner[key := Some(mine)], seen) by {
      forall k | k !in seen ensures Settled(raws, inner[key := Some(mine)], k) {
      }
    }
  }

  /** Giving `key` its value leaves every settled memo settled. */
  lemma KeepsSettled(raws: Raws, memo: Memo, seen: set<TokenKey>, key: TokenKey, v: Raw)
    requires memo.Keys == raws.Keys && key in raws && AllSettled(raws, memo, seen)
    requires memo[key] == None || memo[key] == Some(v)
    requires Right(raws, key, v) && (key in seen || !Loops(raws, key))
    ensures AllSettled(raws, memo[key := Some(v)], seen)
  {
    var after := memo[key := Some(v)];
    forall k | k !in seen ensures Settled(raws, after, k) {
      assert Settled(raws, memo, k);
    }
  }

  /** Fill in one memo. */
  method SetMemo(m: TokenMap, key: TokenKey, v: Raw)
    requires Separate(m) && key in m
    modifies m[key]
    ensures MemoOf(m) == old(MemoOf(m))[key := Some(v)]
  {
    m[key].resolved := Some(v);
  }

  /** resolve(key, seen) */
  method Resolve(m: TokenMap, key: TokenKey, seen: set<TokenKey>) returns (v: Option<Raw>)
    requires Separate(m) && Pending(RawsOf(m), MemoOf(m), seen, key) && AllSettled(RawsOf(m), MemoOf(m), seen)
    modifies m.Values
    ensures Visited(RawsOf(m), old(MemoOf(m)), MemoOf(m), seen, key, v)
    decreases m.Keys - seen
  {
    if key !in m {
      return None;
    }
    ghost var raws, memo := RawsOf(m), MemoOf(m);
    var entry := m[key];
    if entry.resolved.Some? {
      VisitMemo(raws, memo, seen, key);
      return entry.resolved;
    }
    var target := AliasTarget(entry.raw);
    if target.None? || key in seen {
      if target.None? { VisitEnd(raws, memo, seen, key); } else { VisitAgain(raws, memo, seen, key); }
      SetMemo(m, key, entry.raw);
      return Some(entry.raw);
    }
    PendingStep(raws, memo, seen, key);
    var inner := Resolve(m, target.value, seen + {key});
    ghost var between := MemoOf(m);
    var mine := if inner.None? || inner.value.Null? then entry.raw else inner.value;
    VisitStep(raws, memo, between, seen, key, inner, mine);
    SetMemo(m, key, mine);
    return Some(mine);
  }

  /** Every token is resolved, each to the right value, and all tokens on or leading into one
      cycle to one value. */
  ghost predicate Resolved(m: TokenMap)
    reads m.Values
  {
    var raws := RawsOf(m);
    forall k :: k in m ==>
      && m[k].resolved.Some? && Right(raws, k, m[k].resolved.value)
      && (Loops(raws, k) ==> Next(raws, k).Some? && m[Next(raws, k).value].resolved == m[k].resolved)
  }

  /** resolveAliases(map), in whatever order the keys are visited. */
  method ResolveAliases(m: TokenMap, order: seq<TokenKey>)
    requires Separate(m) && (forall k :: k in m <==> k in order)
    requires forall k :: k in m ==> m[k].resolved == None
    modifies m.Values
    ensures Resolved(m)
  {
    for i := 0 to |order|
      invariant AllSettled(RawsOf(m), MemoOf(m), {})
      invariant forall j :: 0 <= j < i ==> MemoOf(m)[order[j]].Some?
    {
      var v := Resolve(m, order[i], {});
    }
    forall k | k in m ensures m[k].resolved.Some? && Settled(RawsOf(m), MemoOf(m), k) {
      var j :| 0 <= j < |order| && order[j] == k;
    }
  }

  /** All tokens along a chain that never ends have one value; so do all that meet it. */
  lemma {:induction false} OneValueAlongCycle(m: TokenMap, k: TokenKey, n: nat)
    requires Resolved(m) && k in m && Loops(RawsOf(m), k)
    ensures var at := Walk(RawsOf(m), k, n); at.Some? && at.value in m && m[at.value].resolved == m[k].resolved
    decreases n
  {
    if n > 0 {
      LoopsStep(RawsOf(m), k);
      OneValueAlongCycle(m, Next(RawsOf(m), k).value, n - 1);
    }
  }
}
