/** What an alias among design tokens means, said without any memo or visiting order: follow
    the chain of aliases. */
module AliasChains {
  import opened Wrappers

  type TokenKey = string

  /** A token's value: text, JSON null, or any other JSON value. */
  datatype Raw = Text(text: string) | Null | Other(json: int)

  /** The key an alias `{a.b.c}` names: one or more characters other than a closing brace. */
  function AliasTarget(raw: Raw): Option<TokenKey> {
    if raw.Text? && |raw.text| >= 3 && raw.text[0] == '{' && raw.text[|raw.text| - 1] == '}'
       && '}' !in raw.text[1..|raw.text| - 1]
    then Some(raw.text[1..|raw.text| - 1])
    else None
  }

  type Raws = map<TokenKey, Raw>

  /** The next defined token on the chain. */
  function Next(raws: Raws, k: TokenKey): Option<TokenKey> {
    if k !in raws then None
    else match AliasTarget(raws[k])
      case None => None
      case Some(t) => if t in raws then Some(t) else None
  }

  /** The token `n` steps along the chain. */
  function Walk(raws: Raws, k: TokenKey, n: nat): Option<TokenKey>
    decreases n
  {
    if n == 0 then Some(k)
    else match Next(raws, k) case None => None case Some(t) => Walk(raws, t, n - 1)
  }

  /** The chain never ends. */
  ghost predicate Loops(raws: Raws, k: TokenKey) {
    forall n: nat :: Walk(raws, k, n).Some?
  }

  ghost predicate Reaches(raws: Raws, k: TokenKey, c: TokenKey) {
    exists n: nat :: n > 0 && Walk(raws, k, n) == Some(c)
  }

  ghost predicate OnCycle(raws: Raws, c: TokenKey) {
    Reaches(raws, c, c)
  }

  /** The value of a chain followed for at most `n` steps: a token whose alias leads to nothing
      or to null keeps its own text. */
  function Plain(raws: Raws, k: TokenKey, n: nat): Raw
    requires k in raws
    decreases n
  {
    if n == 0 || Next(raws, k).None? then raws[k]
    else
      var v := Plain(raws, Next(raws, k).value, n - 1);
      if v.Null? then raws[k] else v
  }

  /** `v` is the right value for token `k`: the plain value of a chain that ends, and for one
      that does not, the text of some token on its cycle. */
  ghost predicate Right(raws: Raws, k: TokenKey, v: Raw)
    requires k in raws
  {
    && (forall n: nat :: Walk(raws, k, n).None? ==> v == Plain(raws, k, n))
    && (Loops(raws, k) ==> exists c :: c in raws && OnCycle(raws, c) && (c == k || Reaches(raws, k, c)) && v == raws[c])
  }

  lemma {:induction false} WalkIn(raws: Raws, within: set<TokenKey>, k: TokenKey, n: nat)
    requires k in within && forall s :: s in within ==> Next(raws, s).Some? && Next(raws, s).value in within
    ensures Walk(raws, k, n).Some? && Walk(raws, k, n).value in within
    decreases n
  {
    if n > 0 { WalkIn(raws, within, Next(raws, k).value, n - 1); }
  }

  /** A set of tokens closed under the next step has no chain that ends. */
  lemma ClosedLoops(raws: Raws, within: set<TokenKey>, k: TokenKey)
    requires k in within && forall s :: s in within ==> Next(raws, s).Some? && Next(raws, s).value in within
    ensures Loops(raws, k)
  {
    forall n: nat ensures Walk(raws, k, n).Some? { WalkIn(raws, within, k, n); }
  }

  lemma LoopsStep(raws: Raws, k: TokenKey)
    requires Next(raws, k).Some?
    ensures Loops(raws, k) <==> Loops(raws, Next(raws, k).value)
  {
    var t := Next(raws, k).value;
    if Loops(raws, k) {
      forall n: nat ensures Walk(raws, t, n).Some? { assert Walk(raws, k, n + 1).Some?; }
    }
    if Loops(raws, t) {
      forall n: nat ensures Walk(raws, k, n).Some? { if n > 0 { assert Walk(raws, t, n - 1).Some?; } }
    }
  }

  lemma LoopsGoesOn(raws: Raws, k: TokenKey)
    requires Loops(raws, k)
    ensures Next(raws, k).Some?
  {
    assert Walk(raws, k, 1).Some?;
  }

  lemma {:induction false} WalkStep(raws: Raws, s: TokenKey, n: nat, k: TokenKey)
    requires Walk(raws, s, n) == Some(k) && Next(raws, k).Some?
    ensures Walk(raws, s, n + 1) == Next(raws, k)
    decreases n
  {
    if n > 0 { WalkStep(raws, Next(raws, s).value, n - 1, k); }
    else { assert Walk(raws, Next(raws, k).value, 0) == Next(raws, k); }
  }

  /** Reaching a token is reaching the next one. */
  lemma ReachesStep(raws: Raws, s: TokenKey, k: TokenKey)
    requires (s == k || Reaches(raws, s, k)) && Next(raws, k).Some?
    ensures Reaches(raws, s, Next(raws, k).value)
  {
    if s == k {
      WalkStep(raws, s, 0, k);
      assert Walk(raws, s, 1) == Next(raws, k);
    } else {
      var n: nat :| n > 0 && Walk(raws, s, n) == Some(k);
      WalkStep(raws, s, n, k);
      assert n + 1 > 0 && Walk(raws, s, n + 1) == Some(Next(raws, k).value);
    }
  }

  /** What the next token reaches, this one reaches. */
  lemma ReachesBack(raws: Raws, k: TokenKey, c: TokenKey)
    requires Next(raws, k).Some? && (Next(raws, k).value == c || Reaches(raws, Next(raws, k).value, c))
    ensures Reaches(raws, k, c)
  {
    var t := Next(raws, k).value;
    if t == c {
      assert Walk(raws, k, 1) == Walk(raws, t, 0) == Some(c);
    } else {
      var n: nat :| n > 0 && Walk(raws, t, n) == Some(c);
      assert n + 1 > 0 && Walk(raws, k, n + 1) == Some(c);
    }
  }

  /** A token that is no alias, or whose alias names nothing, is right with its own value. */
  lemma EndIsRight(raws: Raws, k: TokenKey)
    requires k in raws && Next(raws, k).None?
    ensures Right(raws, k, raws[k])
  {
    assert Walk(raws, k, 1).None?;
  }

  /** The token a chain comes back to is right with its own text. */
  lemma CycleIsRight(raws: Raws, k: TokenKey)
    requires k in raws && Loops(raws, k) && OnCycle(raws, k)
    ensures Right(raws, k, raws[k])
  {
  }

  /** A chain that never ends has text for a value, never null. */
  lemma LoopValueIsAlias(raws: Raws, k: TokenKey, v: Raw)
    requires k in raws && Loops(raws, k) && Right(raws, k, v)
    ensures v.Text?
  {
    var c :| c in raws && OnCycle(raws, c) && v == raws[c];
    var n: nat :| n > 0 && Walk(raws, c, n) == Some(c);
    assert Next(raws, c).Some?;
  }

  /** The right value of the next token gives this one's. */
  lemma StepIsRight(raws: Raws, k: TokenKey, v: Raw)
    requires k in raws && Next(raws, k).Some? && Right(raws, Next(raws, k).value, v)
    ensures Right(raws, k, if v.Null? then raws[k] else v)
  {
    var t := Next(raws, k).value;
    LoopsStep(raws, k);
    forall n: nat | Walk(raws, k, n).None? ensures (if v.Null? then raws[k] else v) == Plain(raws, k, n) {
      assert Walk(raws, t, n - 1).None?;
    }
    if Loops(raws, k) {
      LoopValueIsAlias(raws, t, v);
      var c :| c in raws && OnCycle(raws, c) && (c == t || Reaches(raws, t, c)) && v == raws[c];
      ReachesBack(raws, k, c);
    }
  }

  /** Without nulls, the value of a chain that ends is that of the last token on it. */
  lemma {:induction false} PlainIsLast(raws: Raws, k: TokenKey, n: nat) returns (last: TokenKey, m: nat)
    requires k in raws && Walk(raws, k, n).None? && forall j :: j in raws ==> !raws[j].Null?
    ensures Walk(raws, k, m) == Some(last) && last in raws && Next(raws, last).None? && Plain(raws, k, n) == raws[last]
    decreases n
  {
    if Next(raws, k).None? {
      last, m := k, 0;
    } else {
      last, m := PlainIsLast(raws, Next(raws, k).value, n - 1);
      m := m + 1;
    }
  }
}
