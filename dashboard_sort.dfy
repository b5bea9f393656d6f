/** The dashboard's optional sort: by model number in natural order, by model name, or
    by purchase price, ascending or descending. The collation of `localeCompare` is
    approximated: letters compare case-insensitively first and lower case goes first
    among otherwise equal strings; under numeric collation a run of digits compares by
    its value and digits go before every other character. */
module DashboardSort {
  import opened Wrappers
  import opened Text
  import opened Sorting
  import opened Kits

  datatype SortKey = ModelNumber | ModelName | Price

  datatype SortOrder = Asc | Desc

  function CharCompare(a: char, b: char): int {
    a as int - b as int
  }

  lemma CharPreorder()
    ensures TotalPreorder(CharCompare)
  {
  }

  /** Case-insensitive comparison of the characters. */
  function PrimaryName(a: string, b: string): int {
    LexCompare(ToLower(a), ToLower(b), CharCompare)
  }

  /** Among strings that differ only in case, the one with lower case first goes first. */
  function CaseOrder(a: string, b: string): int {
    LexCompare(b, a, CharCompare)
  }

  /** `localeCompare` on model names. */
  function NameCompare(a: string, b: string): int {
    ThenCompare(PrimaryName, CaseOrder, a, b)
  }

  /** A piece of a model number: a run of digits read as a number, or one other character. */
  datatype Token = Number(value: nat) | Symbol(c: char)

  function Tokenize(s: string): seq<Token>
    decreases |s|
  {
    if s == [] then []
    else if IsDigit(s[0]) then
      var d := LeadingDigits(s);
      [Number(DigitsValue(d))] + Tokenize(s[|d|..])
    else [Symbol(s[0])] + Tokenize(s[1..])
  }

  function TokenCompare(a: Token, b: Token): int {
    match (a, b)
    case (Number(x), Number(y)) => x - y
    case (Number(_), Symbol(_)) => -1
    case (Symbol(_), Number(_)) => 1
    case (Symbol(c), Symbol(d)) => CharCompare(c, d)
  }

  lemma TokenPreorder()
    ensures TotalPreorder(TokenCompare)
  {
  }

  function PrimaryNumber(a: string, b: string): int {
    LexCompare(Tokenize(ToLower(a)), Tokenize(ToLower(b)), TokenCompare)
  }

  /** `localeCompare` with numeric collation, on model numbers. */
  function NumberCompare(a: string, b: string): int {
    ThenCompare(PrimaryNumber, CaseOrder, a, b)
  }

  /** Numeric collation puts "2" before "10". */
  lemma NumericCollationExample()
    ensures NumberCompare("2", "10") < 0
  {
    assert Tokenize(ToLower("2")) == [Number(2)];
    assert LeadingDigits("10") == "10";
    assert Tokenize(ToLower("10")) == [Number(10)];
  }

  /** Case is ignored before anything else: "Zaku" goes after "gouf". */
  lemma NameCollationExample()
    ensures NameCompare("Zaku", "gouf") > 0
  {
    assert ToLower("Zaku") == "zaku";
    assert ToLower("gouf") == "gouf";
  }

  /** The price a kit sorts by: no price, like a zero price, counts as 0. Prices are
      held in whole cents. */
  function PriceOf(k: Kit): int {
    if k.purchasePrice.Some? then k.purchasePrice.value else 0
  }

  function KeyCompare(key: SortKey, a: Kit, b: Kit): int {
    match key
    case ModelNumber => NumberCompare(a.modelNumber, b.modelNumber)
    case ModelName => NameCompare(a.modelName, b.modelName)
    case Price => PriceOf(a) - PriceOf(b)
  }

  /** The compare function handed to the sort: descending order negates it. */
  function Comparator(key: SortKey, order: SortOrder): (Kit, Kit) -> int {
    (a: Kit, b: Kit) => if order == Asc then KeyCompare(key, a, b) else -KeyCompare(key, a, b)
  }

  lemma StringPreorders()
    ensures TotalPreorder(PrimaryName) && TotalPreorder(CaseOrder) && TotalPreorder(PrimaryNumber)
  {
    CharPreorder();
    TokenPreorder();
    forall a: string, b: string
      ensures PrimaryName(a, b) < 0 <==> PrimaryName(b, a) > 0
      ensures CaseOrder(a, b) < 0 <==> CaseOrder(b, a) > 0
      ensures PrimaryNumber(a, b) < 0 <==> PrimaryNumber(b, a) > 0
    {
      LexFlip(ToLower(a), ToLower(b), CharCompare);
      LexFlip(b, a, CharCompare);
      LexFlip(Tokenize(ToLower(a)), Tokenize(ToLower(b)), TokenCompare);
    }
    forall a: string, b: string, c: string | PrimaryName(a, b) <= 0 && PrimaryName(b, c) <= 0
      ensures PrimaryName(a, c) <= 0
    {
      LexTransitive(ToLower(a), ToLower(b), ToLower(c), CharCompare);
    }
    forall a: string, b: string, c: string | CaseOrder(a, b) <= 0 && CaseOrder(b, c) <= 0
      ensures CaseOrder(a, c) <= 0
    {
      LexTransitive(c, b, a, CharCompare);
    }
    forall a: string, b: string, c: string | PrimaryNumber(a, b) <= 0 && PrimaryNumber(b, c) <= 0
      ensures PrimaryNumber(a, c) <= 0
    {
      LexTransitive(Tokenize(ToLower(a)), Tokenize(ToLower(b)), Tokenize(ToLower(c)), TokenCompare);
    }
  }

  /** Each key compares kits as a total preorder: swapping the kits flips the sign and
      "does not go after" is transitive. */
  lemma KeyCompareOrders(key: SortKey, a: Kit, b: Kit, c: Kit)
    ensures KeyCompare(key, a, b) < 0 <==> KeyCompare(key, b, a) > 0
    ensures KeyCompare(key, a, b) <= 0 && KeyCompare(key, b, c) <= 0 ==> KeyCompare(key, a, c) <= 0
  {
    StringPreorders();
    match key
    case ModelNumber =>
      ThenFlip(PrimaryNumber, CaseOrder, a.modelNumber, b.modelNumber);
      if KeyCompare(key, a, b) <= 0 && KeyCompare(key, b, c) <= 0 {
        ThenTransitive(PrimaryNumber, CaseOrder, a.modelNumber, b.modelNumber, c.modelNumber);
      }
    case ModelName =>
      ThenFlip(PrimaryName, CaseOrder, a.modelName, b.modelName);
      if KeyCompare(key, a, b) <= 0 && KeyCompare(key, b, c) <= 0 {
        ThenTransitive(PrimaryName, CaseOrder, a.modelName, b.modelName, c.modelName);
      }
    case Price =>
  }

  /** Every comparator the dashboard can choose is a total preorder, so the sort
      orders the kits by it. */
  lemma ComparatorPreorder(key: SortKey, order: SortOrder)
    ensures TotalPreorder(Comparator(key, order))
  {
    var cmp := Comparator(key, order);
    forall a, b
      ensures cmp(a, b) < 0 <==> cmp(b, a) > 0
    {
      KeyCompareOrders(key, a, b, a);
      KeyCompareOrders(key, b, a, b);
    }
    forall a, b, c | cmp(a, b) <= 0 && cmp(b, c) <= 0
      ensures cmp(a, c) <= 0
    {
      if order == Asc {
        KeyCompareOrders(key, a, b, c);
      } else {
        KeyCompareOrders(key, a, b, c);
        KeyCompareOrders(key, b, c, a);
        KeyCompareOrders(key, c, b, a);
        KeyCompareOrders(key, c, a, b);
        assert KeyCompare(key, b, a) <= 0 && KeyCompare(key, c, b) <= 0;
      }
    }
  }

  /** Sorting runs on a copy of the filtered list; without a sort key the list is kept. */
  function SortKits(kits: seq<Kit>, sortBy: Option<SortKey>, order: SortOrder): seq<Kit> {
    if sortBy.None? then kits else Sort(kits, Comparator(sortBy.value, order))
  }

  /** The sorted list holds the same kits, ordered by the chosen comparator, and kits the
      comparator ties keep their relative order. */
  lemma SortKitsSpec(kits: seq<Kit>, sortBy: Option<SortKey>, order: SortOrder)
    ensures multiset(SortKits(kits, sortBy, order)) == multiset(kits)
    ensures sortBy.None? ==> SortKits(kits, sortBy, order) == kits
    ensures sortBy.Some? ==> Sorted(SortKits(kits, sortBy, order), Comparator(sortBy.value, order))
    ensures sortBy.Some? ==> forall x ::
      Ties(SortKits(kits, sortBy, order), x, Comparator(sortBy.value, order))
        == Ties(kits, x, Comparator(sortBy.value, order))
  {
    if sortBy.Some? {
      var cmp := Comparator(sortBy.value, order);
      ComparatorPreorder(sortBy.value, order);
      SortSorted(kits, cmp);
      forall x {
        SortStable(kits, x, cmp);
      }
    }
  }

  /** A descending list read backwards is an ascending one. */
  lemma DescendingIsReversedAscending(s: seq<Kit>, key: SortKey)
    ensures Sorted(s, Comparator(key, Desc)) <==> Sorted(Reverse(s), Comparator(key, Asc))
  {
    var asc := Comparator(key, Asc);
    ComparatorPreorder(key, Asc);
    SortedNegatedIsReversed(s, asc);
    assert forall i, j :: 0 <= i < |s| && 0 <= j < |s| ==>
      Comparator(key, Desc)(s[i], s[j]) == -asc(s[i], s[j]);
  }

  /** Sorting by price from low to high lists the prices in non-decreasing order. */
  lemma PriceAscending(kits: seq<Kit>)
    ensures var r := SortKits(kits, Some(Price), Asc);
      forall i, j :: 0 <= i < j < |r| ==> PriceOf(r[i]) <= PriceOf(r[j])
  {
    SortKitsSpec(kits, Some(Price), Asc);
  }
}
