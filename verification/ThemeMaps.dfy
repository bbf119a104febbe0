/** The light and dark token maps of a pack. The flattened sets hold one entry object per token, and
    merging them passes those objects on; each theme is given copies of its own. */
module ThemeMaps {
  import opened Wrappers
  import opened AliasChains
  import opened AliasResolution

  /** One of a brand pack's themes: whether its name says dark, and its selected sets in order,
      each with whether its state is enabled or source. */
  datatype Theme = Theme(dark: bool, selected: seq<(string, bool)>)

  /** The flattened sets by name. */
  type Flat = map<string, TokenMap>

  ghost function EntriesOf(flat: Flat): set<Entry> {
    set name, k | name in flat && k in flat[name] :: flat[name][k]
  }

  /** Every token of every set has an entry of its own. */
  ghost predicate Apart(flat: Flat) {
    forall m, j, n, k :: m in flat && j in flat[m] && n in flat && k in flat[n] && flat[m][j] == flat[n][k] ==>
        m == n && j == k
  }

  ghost predicate Untouched(flat: Flat)
    reads EntriesOf(flat)
  {
    forall name, k :: name in flat && k in flat[name] ==> flat[name][k].resolved == None
  }

  /** Object.assign over the selected sets, in order: a later set overrides an earlier one. */
  function Merged(flat: Flat, selected: seq<(string, bool)>): TokenMap {
    if selected == [] then map[]
    else
      var (name, on) := selected[|selected| - 1];
      var before := Merged(flat, selected[..|selected| - 1]);
      if on && name in flat then before + flat[name] else before
  }

  /** The last theme of one kind decides that kind's tokens. */
  function ThemeTokens(flat: Flat, themes: seq<Theme>, dark: bool): Option<TokenMap> {
    if themes == [] then None
    else
      var last := themes[|themes| - 1];
      if last.dark == dark then Some(Merged(flat, last.selected)) else ThemeTokens(flat, themes[..|themes| - 1], dark)
  }

  /** Every set, in order. */
  function AllSets(names: seq<string>): seq<(string, bool)> {
    seq(|names|, i requires 0 <= i < |names| => (names[i], true))
  }

  /** The tokens each mode is drawn with: its own theme's, else the other's, else everything. */
  function ModeTokens(flat: Flat, names: seq<string>, themes: seq<Theme>, dark: bool): TokenMap {
    match ThemeTokens(flat, themes, dark)
    case Some(own) => own
    case None =>
      match ThemeTokens(flat, themes, !dark)
      case Some(other) => other
      case None => Merged(flat, AllSets(names))
  }

  // ---- what merging passes on ----

  /** The `i`-th selected set is on and has token `k`. */
  predicate Gives(flat: Flat, selected: seq<(string, bool)>, k: TokenKey, i: nat) {
    i < |selected| && selected[i].1 && selected[i].0 in flat && k in flat[selected[i].0]
  }

  /** A token is in the result when some selected set gives it, as the last such set's own entry. */
  lemma {:induction false} MergedTakesLast(flat: Flat, selected: seq<(string, bool)>, k: TokenKey) returns (last: nat)
    ensures k in Merged(flat, selected) <==> exists i: nat :: Gives(flat, selected, k, i)
    ensures k in Merged(flat, selected) ==>
      Gives(flat, selected, k, last) && Merged(flat, selected)[k] == flat[selected[last].0][k]
    ensures k in Merged(flat, selected) ==> forall j: nat :: Gives(flat, selected, k, j) ==> j <= last
  {
    last := 0;
    if selected != [] {
      var n := |selected| - 1;
      last := MergedTakesLast(flat, selected[..n], k);
      assert forall i: nat :: i < n ==> (Gives(flat, selected, k, i) <==> Gives(flat, selected[..n], k, i));
      if Gives(flat, selected, k, n) { last := n; }
    }
  }

  /** Merging sets of separate entries gives separate entries, all of them the sets' own. */
  lemma MergedIsSeparate(flat: Flat, selected: seq<(string, bool)>)
    requires Apart(flat)
    ensures Separate(Merged(flat, selected)) && Merged(flat, selected).Values <= EntriesOf(flat)
  {
    var m := Merged(flat, selected);
    forall j, k | j in m && k in m && j != k ensures m[j] != m[k] {
      var a := MergedTakesLast(flat, selected, j);
      var b := MergedTakesLast(flat, selected, k);
    }
    forall k | k in m ensures m[k] in EntriesOf(flat) {
      var a := MergedTakesLast(flat, selected, k);
    }
  }

  // ---- the maps ----

  /** Assign the selected sets one after the other. */
  method Merge(flat: Flat, selected: seq<(string, bool)>) returns (merged: TokenMap)
    ensures merged == Merged(flat, selected)
  {
    merged := map[];
    for i := 0 to |selected|
      invariant merged == Merged(flat, selected[..i])
    {
      assert selected[..i + 1][..i] == selected[..i];
      var (name, on) := selected[i];
      if on && name in flat { merged := merged + flat[name]; }
    }
    assert selected[..|selected|] == selected;
  }

  /** What a copy has in common with what it was made from: everything but the objects. */
  ghost predicate Copies(copy: TokenMap, m: TokenMap)
    reads copy.Values, m.Values
  {
    copy.Keys == m.Keys && RawsOf(copy) == RawsOf(m) && MemoOf(copy) == MemoOf(m) && Separate(copy)
  }

  /** copyEntries(map): a new entry for every token. */
  method CopyEntries(m: TokenMap) returns (copy: TokenMap)
    ensures Copies(copy, m) && fresh(copy.Values)
  {
    copy := map[];
    var left := m.Keys;
    while left != {}
      invariant left <= m.Keys && copy.Keys == m.Keys - left && Separate(copy)
      invariant forall k :: k in copy ==> fresh(copy[k]) && copy[k].raw == m[k].raw && copy[k].resolved == m[k].resolved
      decreases left
    {
      var k :| k in left;
      var entry := new Entry(m[k].raw);
      entry.resolved := m[k].resolved;
      copy, left := copy[k := entry], left - {k};
    }
  }

  /** Object.keys(map), in some order. */
  method KeysOf(m: TokenMap) returns (order: seq<TokenKey>)
    ensures forall k :: k in m <==> k in order
  {
    order := [];
    var left := m.Keys;
    while left != {}
      invariant left <= m.Keys && forall k :: k in m.Keys - left <==> k in order
      decreases left
    {
      var k :| k in left;
      order, left := order + [k], left - {k};
    }
  }

  method ResolveAll(m: TokenMap)
    requires Separate(m) && forall k :: k in m ==> m[k].resolved == None
    modifies m.Values
    ensures Resolved(m)
  {
    var order := KeysOf(m);
    ResolveAliases(m, order);
  }

  /** A map made for a theme: copies of what the theme selects. */
  ghost predicate MadeFor(made: Option<TokenMap>, tokens: Option<TokenMap>)
    reads if made.Some? then made.value.Values else {}
  {
    && made.Some? == tokens.Some?
    && (made.Some? ==> RawsOf(made.value) == RawsOf(tokens.value) && Separate(made.value)
                       && forall k :: k in made.value ==> made.value[k].resolved == None)
  }

  /** The copies for the last theme of each kind. */
  method CopyThemes(flat: Flat, themes: seq<Theme>) returns (light: Option<TokenMap>, dark: Option<TokenMap>)
    requires Apart(flat) && Untouched(flat)
    ensures MadeFor(light, ThemeTokens(flat, themes, false)) && MadeFor(dark, ThemeTokens(flat, themes, true))
    ensures (light.Some? ==> fresh(light.value.Values)) && (dark.Some? ==> fresh(dark.value.Values))
    ensures light.Some? && dark.Some? ==> light.value.Values !! dark.value.Values
  {
    light, dark := None, None;
    for i := 0 to |themes|
      invariant MadeFor(light, ThemeTokens(flat, themes[..i], false))
          && MadeFor(dark, ThemeTokens(flat, themes[..i], true))
      invariant (light.Some? ==> fresh(light.value.Values)) && (dark.Some? ==> fresh(dark.value.Values))
      invariant light.Some? && dark.Some? ==> light.value.Values !! dark.value.Values
    {
      assert themes[..i + 1][..i] == themes[..i];
      var merged := Merge(flat, themes[i].selected);
      MergedIsSeparate(flat, themes[i].selected);
      var copy := CopyEntries(merged);
      AllUnresolved(flat, merged, copy);
      if themes[i].dark { dark := Some(copy); } else { light := Some(copy); }
    }
    assert themes[..|themes|] == themes;
  }

  lemma AllUnresolved(flat: Flat, merged: TokenMap, copy: TokenMap)
    requires Untouched(flat) && merged.Values <= EntriesOf(flat) && Copies(copy, merged)
    ensures forall k :: k in merged ==> merged[k].resolved == None
    ensures forall k :: k in copy ==> copy[k].resolved == None
  {
    forall k | k in merged ensures merged[k].resolved == None { assert merged[k] in EntriesOf(flat); }
    forall k | k in copy ensures copy[k].resolved == None { assert MemoOf(copy)[k] == MemoOf(merged)[k]; }
  }

  /** The rest of buildThemeMaps, from the flattened sets and the order of their names: each mode
      resolves its own tokens. With a theme, no entry of the sets is touched, and the modes share
      entries only by sharing the whole map. Without one, the sets' own entries are resolved. */
  method BuildFrom(flat: Flat, names: seq<string>, themes: seq<Theme>) returns (light: TokenMap, dark: TokenMap)
    requires Apart(flat) && Untouched(flat)
    modifies EntriesOf(flat)
    ensures RawsOf(light) == RawsOf(ModeTokens(flat, names, themes, false)) && Resolved(light)
    ensures RawsOf(dark) == RawsOf(ModeTokens(flat, names, themes, true)) && Resolved(dark)
    ensures ThemeTokens(flat, themes, false).Some? && ThemeTokens(flat, themes, true).Some? ==>
        light.Values !! dark.Values
    ensures ThemeTokens(flat, themes, false).None? || ThemeTokens(flat, themes, true).None? ==> light == dark
    ensures themes != [] ==> Untouched(flat) && fresh(light.Values) && fresh(dark.Values)
    ensures themes == [] ==> light == Merged(flat, AllSets(names))
  {
    var ownLight, ownDark := CopyThemes(flat, themes);
    SomeTheme(flat, themes);
    if ownLight.None? && ownDark.None? {
      light := Merge(flat, AllSets(names));
      MergedIsSeparate(flat, AllSets(names));
      dark := light;
      assert forall k :: k in light ==> light[k] in EntriesOf(flat);
      ResolveAll(light);
    } else {
      light := if ownLight.Some? then ownLight.value else ownDark.value;
      dark := if ownDark.Some? then ownDark.value else ownLight.value;
      ResolveAll(light);
      if ownLight.Some? && ownDark.Some? { ResolveAll(dark); }
    }
  }

  lemma SomeTheme(flat: Flat, themes: seq<Theme>)
    ensures themes == [] <==> ThemeTokens(flat, themes, false).None? && ThemeTokens(flat, themes, true).None?
  {
  }

  /** buildThemeMaps(tokens) from the tokens of every set: flattening gives each token of each set
      an object of its own. */
  method BuildThemeMaps(sets: map<string, Raws>, names: seq<string>, themes: seq<Theme>)
      returns (flat: Flat, light: TokenMap, dark: TokenMap)
    ensures flat.Keys == sets.Keys && forall name :: name in sets ==> RawsOf(flat[name]) == sets[name]
    ensures RawsOf(light) == RawsOf(ModeTokens(flat, names, themes, false)) && Resolved(light)
    ensures RawsOf(dark) == RawsOf(ModeTokens(flat, names, themes, true)) && Resolved(dark)
    ensures ThemeTokens(flat, themes, false).Some? && ThemeTokens(flat, themes, true).Some? ==>
        light.Values !! dark.Values
    ensures themes != [] ==> Untouched(flat) && EntriesOf(flat) !! light.Values + dark.Values
  {
    flat := NewSets(sets);
    light, dark := BuildFrom(flat, names, themes);
  }

  method NewSets(sets: map<string, Raws>) returns (flat: Flat)
    ensures flat.Keys == sets.Keys && (forall name :: name in sets ==> RawsOf(flat[name]) == sets[name])
    ensures Apart(flat) && Untouched(flat) && fresh(EntriesOf(flat))
  {
    flat := map[];
    var left := sets.Keys;
    while left != {}
      invariant left <= sets.Keys && flat.Keys == sets.Keys - left
      invariant forall name :: name in flat ==> RawsOf(flat[name]) == sets[name]
      invariant Apart(flat) && Untouched(flat) && fresh(EntriesOf(flat))
      decreases left
    {
      var name :| name in left;
      var added := NewSet(sets[name]);
      assert forall k :: k in added ==> added[k] !in EntriesOf(flat);
      Added(flat, name, added);
      flat, left := flat[name := added], left - {name};
    }
  }

  lemma {:induction false} Added(flat: Flat, name: string, added: TokenMap)
    requires name !in flat && Apart(flat) && Separate(added) && forall k :: k in added ==> added[k] !in EntriesOf(flat)
    ensures Apart(flat[name := added]) && EntriesOf(flat[name := added]) == EntriesOf(flat) + added.Values
  {
    var all := flat[name := added];
    forall e | e in EntriesOf(all) ensures e in EntriesOf(flat) + added.Values {
      var n, k :| n in all && k in all[n] && all[n][k] == e;
      if n != name { assert flat[n][k] == e; }
    }
    forall e | e in EntriesOf(flat) + added.Values ensures e in EntriesOf(all) {
      if e in EntriesOf(flat) {
        var n, k :| n in flat && k in flat[n] && flat[n][k] == e;
        assert all[n][k] == e;
      } else {
        var k :| k in added && added[k] == e;
        assert all[name][k] == e;
      }
    }
    forall m, j, n, k | m in all && j in all[m] && n in all && k in all[n] && all[m][j] == all[n][k]
        ensures m == n && j == k {
      if m != name { assert all[m][j] in EntriesOf(flat); }
      if n != name { assert all[n][k] in EntriesOf(flat); }
    }
  }

  method NewSet(raws: Raws) returns (m: TokenMap)
    ensures RawsOf(m) == raws && Separate(m) && forall k :: k in m ==> fresh(m[k]) && m[k].resolved == None
  {
    m := map[];
    var left := raws.Keys;
    while left != {}
      invariant left <= raws.Keys && m.Keys == raws.Keys - left && Separate(m)
      invariant forall k :: k in m ==> fresh(m[k]) && m[k].raw == raws[k] && m[k].resolved == None
      decreases left
    {
      var k :| k in left;
      var entry := new Entry(raws[k]);
      m, left := m[k := entry], left - {k};
    }
  }

  /** An alias both modes share takes each mode's own value of the token it names. */
  lemma SharedAliasFollowsItsMode(m: TokenMap, k: TokenKey)
    requires Resolved(m) && k in m && Next(RawsOf(m), k).Some?
    ensures var t := Next(RawsOf(m), k).value;
      Next(RawsOf(m), t).None? && !RawsOf(m)[t].Null? ==> m[k].resolved == Some(RawsOf(m)[t])
  {
    var raws := RawsOf(m);
    var t := Next(raws, k).value;
    if Next(raws, t).None? && !raws[t].Null? {
      assert Walk(raws, k, 2) == Walk(raws, t, 1) == None;
      assert Plain(raws, k, 2) == Plain(raws, t, 1);
    }
  }
}
