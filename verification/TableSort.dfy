/** The order of table cells. */
module TableSort {
  import opened Wrappers
  import opened JsText
  import opened JsonStrings

  datatype SortType = Auto | Number | Date | TextSort

  /** How the platform reads a cell as a number or as a date, and compares two texts. */
  datatype Coercer = Coercer(number: Text -> Option<real>, date: Text -> Option<real>, locale: (Text, Text) -> real)

  const DASH: Text := [0x2014]

  predicate IsBlank(s: Text) {
    s == [] || s == DASH
  }

  predicate Both(f: Text -> Option<real>, a: Text, b: Text) {
    f(a).Some? && f(b).Some?
  }

  function Gap(f: Text -> Option<real>, a: Text, b: Text): real
    requires Both(f, a, b)
  {
    f(a).value - f(b).value
  }

  /** compareValues(a, b, type): below zero, zero or above zero. */
  function CompareValues(k: Coercer, a: Text, b: Text, sort: SortType): real {
    if IsBlank(a) && IsBlank(b) then 0.0
    else if IsBlank(a) then 1.0
    else if IsBlank(b) then -1.0
    else if (sort.Number? || sort.Auto?) && Both(k.number, a, b) then Gap(k.number, a, b)
    else if (sort.Date? || sort.Auto?) && Both(k.date, a, b) then Gap(k.date, a, b)
    else k.locale(a, b)
  }

  /** On these values the comparison is the order of their ranks. */
  ghost predicate RankedBy(k: Coercer, values: set<Text>, sort: SortType, rank: Text -> real) {
    forall a, b :: a in values && b in values && !IsBlank(a) && !IsBlank(b) ==>
      && (CompareValues(k, a, b, sort) < 0.0 <==> rank(a) < rank(b))
      && (CompareValues(k, a, b, sort) > 0.0 <==> rank(a) > rank(b))
  }

  function ValueOr0(f: Text -> Option<real>): Text -> real {
    (t: Text) => match f(t) case None => 0.0 case Some(v) => v
  }

  /** Columns that have an order: all numbers where numbers count; all dates where dates count
      and no two cells read as numbers first; otherwise the platform's order of texts. */
  lemma NumbersAreRanked(k: Coercer, values: set<Text>, sort: SortType)
    requires (sort.Number? || sort.Auto?) && forall a :: a in values && !IsBlank(a) ==> k.number(a).Some?
    ensures RankedBy(k, values, sort, ValueOr0(k.number))
  {
  }

  lemma DatesAreRanked(k: Coercer, values: set<Text>, sort: SortType)
    requires sort.Date? || sort.Auto?
    requires forall a :: a in values && !IsBlank(a) ==> k.date(a).Some? && (sort.Auto? ==> k.number(a).None?)
    ensures RankedBy(k, values, sort, ValueOr0(k.date))
  {
  }

  lemma TextsAreRanked(k: Coercer, values: set<Text>, sort: SortType, rank: Text -> real)
    requires forall a :: a in values && !IsBlank(a) ==>
      ((sort.Number? || sort.Auto?) ==> k.number(a).None?) && ((sort.Date? || sort.Auto?) ==> k.date(a).None?)
    requires forall a, b ::
      (k.locale(a, b) < 0.0 <==> rank(a) < rank(b)) && (k.locale(a, b) > 0.0 <==> rank(a) > rank(b))
    ensures RankedBy(k, values, sort, rank)
  {
  }

  // ---- columns that mix numbers and words ----

  /** Every two cells that both read as `f` are compared by that, all others as texts. */
  predicate ByReading(k: Coercer, values: set<Text>, sort: SortType, f: Text -> Option<real>) {
    forall a, b :: a in values && b in values && !IsBlank(a) && !IsBlank(b) ==>
      CompareValues(k, a, b, sort) == if Both(f, a, b) then Gap(f, a, b) else k.locale(a, b)
  }

  /** Which columns are compared so; an automatic one must not have words that read as dates. */
  lemma ReadingOf(k: Coercer, values: set<Text>, sort: SortType)
    ensures sort.Number? ==> ByReading(k, values, sort, k.number)
    ensures sort.Date? ==> ByReading(k, values, sort, k.date)
    ensures sort.Auto? && (forall a :: a in values && !IsBlank(a) && k.number(a).None? ==> k.date(a).None?) ==>
              ByReading(k, values, sort, k.number)
  {
  }

  /** The platform's order of texts puts the cells at these places. */
  predicate TextsPlaced(k: Coercer, values: set<Text>, place: Text -> real) {
    forall a, b :: a in values && b in values && !IsBlank(a) && !IsBlank(b) ==>
      && (k.locale(a, b) < 0.0 <==> place(a) < place(b))
      && (k.locale(a, b) > 0.0 <==> place(a) > place(b))
  }

  /** A word whose place is between those of two numbers finds them there in the order of their
      values, and apart if their places are apart. */
  predicate Between(f: Text -> Option<real>, place: Text -> real, x: Text, w: Text, y: Text) {
    Both(f, x, y) && f(w).None? && place(x) <= place(w) <= place(y) ==>
      Gap(f, x, y) <= 0.0 && (place(x) < place(y) ==> Gap(f, x, y) < 0.0)
  }

  predicate WordsFit(f: Text -> Option<real>, values: set<Text>, place: Text -> real) {
    forall x, w, y :: x in values && w in values && y in values && !IsBlank(x) && !IsBlank(w) && !IsBlank(y) ==>
      Between(f, place, x, w, y)
  }

  /** The cells a cell comes after. */
  function Below(k: Coercer, values: set<Text>, sort: SortType, a: Text): set<Text> {
    set b | b in values && !IsBlank(b) && CompareValues(k, b, a, sort) < 0.0
  }

  function CountBelow(k: Coercer, values: set<Text>, sort: SortType): Text -> real {
    (a: Text) => |Below(k, values, sort, a)| as real
  }

  /** Nothing can come before its own predecessor, and what is not before something is not before
      what that is not before either. */
  predicate Steady(k: Coercer, values: set<Text>, sort: SortType, a: Text, b: Text, c: Text) {
    && (CompareValues(k, a, b, sort) < 0.0 <==> CompareValues(k, b, a, sort) > 0.0)
    && (CompareValues(k, a, b, sort) <= 0.0 && CompareValues(k, b, c, sort) <= 0.0 ==>
        CompareValues(k, a, c, sort) <= 0.0)
  }

  predicate AllSteady(k: Coercer, values: set<Text>, sort: SortType) {
    forall a, b, c :: a in values && b in values && c in values && !IsBlank(a) && !IsBlank(b) && !IsBlank(c) ==>
      Steady(k, values, sort, a, b, c)
  }

  lemma SmallerSet(a: set<Text>, b: set<Text>, x: Text)
    requires a <= b && x in b && x !in a
    ensures |a| < |b|
  {
    assert b == a + (b - a) && x in b - a;
  }

  lemma BelowGrows(k: Coercer, values: set<Text>, sort: SortType, a: Text, b: Text)
    requires AllSteady(k, values, sort) && a in values && b in values && !IsBlank(a) && !IsBlank(b)
    requires CompareValues(k, a, b, sort) <= 0.0
    ensures Below(k, values, sort, a) <= Below(k, values, sort, b)
    ensures CompareValues(k, a, b, sort) < 0.0 ==> |Below(k, values, sort, a)| < |Below(k, values, sort, b)|
    ensures CompareValues(k, b, a, sort) <= 0.0 ==> Below(k, values, sort, a) == Below(k, values, sort, b)
  {
    forall c | c in values && !IsBlank(c)
      ensures c in Below(k, values, sort, a) ==> c in Below(k, values, sort, b)
      ensures CompareValues(k, b, a, sort) <= 0.0 && c in Below(k, values, sort, b) ==> c in Below(k, values, sort, a)
    {
      assert Steady(k, values, sort, b, c, a) && Steady(k, values, sort, a, c, b);
      assert Steady(k, values, sort, a, b, c) && Steady(k, values, sort, b, a, c);
    }
    if CompareValues(k, a, b, sort) < 0.0 {
      assert Steady(k, values, sort, a, a, a);
      SmallerSet(Below(k, values, sort, a), Below(k, values, sort, b), a);
    }
  }

  /** A column can be ranked exactly if its comparison never goes round; then counting the cells
      that come before ranks it. */
  lemma RankedIfSteady(k: Coercer, values: set<Text>, sort: SortType)
    ensures (exists rank: Text -> real :: RankedBy(k, values, sort, rank)) <==> AllSteady(k, values, sort)
  {
    if AllSteady(k, values, sort) {
      var rank := CountBelow(k, values, sort);
      forall a, b | a in values && b in values && !IsBlank(a) && !IsBlank(b)
        ensures CompareValues(k, a, b, sort) < 0.0 <==> rank(a) < rank(b)
        ensures CompareValues(k, a, b, sort) > 0.0 <==> rank(a) > rank(b)
      {
        assert Steady(k, values, sort, a, b, a) && Steady(k, values, sort, b, a, b);
        if CompareValues(k, a, b, sort) <= 0.0 { BelowGrows(k, values, sort, a, b); }
        if CompareValues(k, b, a, sort) <= 0.0 { BelowGrows(k, values, sort, b, a); }
      }
      assert RankedBy(k, values, sort, rank);
    }
  }

  /** A column of numbers and words has an order exactly if no word stands, among the texts,
      between two numbers that are the other way round by value. */
  lemma MixedIsRanked(k: Coercer, values: set<Text>, sort: SortType, f: Text -> Option<real>, place: Text -> real)
    requires ByReading(k, values, sort, f) && TextsPlaced(k, values, place)
    ensures (exists rank: Text -> real :: RankedBy(k, values, sort, rank)) <==> WordsFit(f, values, place)
  {
    RankedIfSteady(k, values, sort);
    if AllSteady(k, values, sort) {
      forall x, w, y | x in values && w in values && y in values && !IsBlank(x) && !IsBlank(w) && !IsBlank(y)
        ensures Between(f, place, x, w, y)
      {
        assert Steady(k, values, sort, x, w, y) && Steady(k, values, sort, y, x, w) && Steady(k, values, sort, w, y, x);
      }
    }
    if WordsFit(f, values, place) {
      forall a, b, c | a in values && b in values && c in values && !IsBlank(a) && !IsBlank(b) && !IsBlank(c)
        ensures Steady(k, values, sort, a, b, c)
      {
        assert Between(f, place, a, b, c) && Between(f, place, c, a, b) && Between(f, place, b, c, a);
      }
    }
  }

  /** "-2", "-5x" and "-10" */
  const TWO: Text := [0x2D, 0x32]
  const WORD: Text := [0x2D, 0x35, 0x78]
  const TEN: Text := [0x2D, 0x31, 0x30]

  /** Three such cells. By value -10 comes before -2; as texts, where digits after the same sign
      count by their value, "-2" comes before "-5x" and that before "-10": each of the three comes
      before the next, all the way round. */
  lemma MixedColumnsCanCycle(k: Coercer, place: Text -> real)
    requires k.number(TWO) == Some(-2.0) && k.number(TEN) == Some(-10.0) && k.number(WORD).None? && k.date(WORD).None?
    requires TextsPlaced(k, {TWO, WORD, TEN}, place) && place(TWO) < place(WORD) < place(TEN)
    ensures CompareValues(k, TEN, TWO, Auto) < 0.0 && CompareValues(k, TWO, WORD, Auto) < 0.0
        && CompareValues(k, WORD, TEN, Auto) < 0.0
    ensures forall rank: Text -> real :: !RankedBy(k, {TWO, WORD, TEN}, Auto, rank)
  {
    assert CompareValues(k, TEN, TWO, Auto) == -10.0 - -2.0;
  }
}
