// The menu helpers of script.js: `parsePrice`, `getDisplayData` (the
// favourites block in front of the menu) and the ordering of the category
// navigation in `renderNav` / `renderMenu`.
module Menu {
  import opened Text

  // ---------------------------------------------------------------------------
  // Prices

  function DigitValue(ch: char): nat
    requires IsDigit(ch)
  {
    ch as int - '0' as int
  }

  /** `parseInt(d, 10)` for a non-empty string of digits. */
  function DecimalValue(d: string): nat
    requires forall i :: 0 <= i < |d| ==> IsDigit(d[i])
    decreases |d|
  {
    if d == [] then 0 else DecimalValue(d[..|d| - 1]) * 10 + DigitValue(d[|d| - 1])
  }

  /** `parsePrice(val)` for a cell read as text: an empty cell and a cell
      without digits are 0, otherwise the digits read as one number. */
  function ParsePrice(val: string): nat {
    if val == "" then 0
    else
      var clean := Digits(val);
      if clean == [] then 0 else DecimalValue(clean)
  }

  /** The decimal digits of `n`, most significant first. */
  function NatToString(n: nat): (s: string)
    ensures |s| >= 1
    ensures forall i :: 0 <= i < |s| ==> IsDigit(s[i])
    decreases n
  {
    var last := ['0' + (n % 10) as char];
    if n < 10 then last else NatToString(n / 10) + last
  }

  /** A price is the number its digits spell, wherever they stand. */
  lemma ParsePriceIsDigitValue(val: string)
    ensures ParsePrice(val) == DecimalValue(Digits(val))
  {
  }

  lemma {:induction false} DecimalOfNatToString(n: nat)
    ensures DecimalValue(NatToString(n)) == n
    decreases n
  {
    var last := ['0' + (n % 10) as char];
    if n >= 10 {
      DecimalOfNatToString(n / 10);
      var s := NatToString(n / 10) + last;
      assert s[..|s| - 1] == NatToString(n / 10);
    }
  }

  /** A price written as a number with text around it that holds no digit
      (a currency sign, spaces) parses back to the number. */
  lemma ParsePriceRoundTrip(n: nat, before: string, after: string)
    requires forall i :: 0 <= i < |before| ==> !IsDigit(before[i])
    requires forall i :: 0 <= i < |after| ==> !IsDigit(after[i])
    ensures ParsePrice(before + NatToString(n) + after) == n
  {
    var s := NatToString(n);
    DigitsAppend(before + s, after);
    DigitsAppend(before, s);
    DigitsOfNonDigits(before);
    DigitsOfNonDigits(after);
    DigitsOfDigits(s);
    assert before + s + after != "" by { assert |before + s + after| >= |s|; }
    assert [] + s + [] == s;
    DecimalOfNatToString(n);
  }

  // ---------------------------------------------------------------------------
  // Favourites first

  datatype Product = Product(id: string, cat: string, name: string, price: int)

  const FavoritesCategory := "ИЗБРАННОЕ"

  function IdSet(m: seq<Product>): set<string> {
    set i | 0 <= i < |m| :: m[i].id
  }

  /** The favourites block: each product whose id is a favourite and has not
      appeared earlier in the menu, in menu order, moved to the favourites
      category. */
  function FavPart(m: seq<Product>, favs: set<string>): seq<Product>
    decreases |m|
  {
    if m == [] then []
    else
      var init := m[..|m| - 1];
      var p := m[|m| - 1];
      FavPart(init, favs) + (if p.id in favs && p.id !in IdSet(init) then [p.(cat := FavoritesCategory)] else [])
  }

  lemma IdSetSnoc(m: seq<Product>, p: Product)
    ensures IdSet(m + [p]) == IdSet(m) + {p.id}
  {
    var s := m + [p];
    forall x | x in IdSet(s) ensures x in IdSet(m) + {p.id} {
      var i :| 0 <= i < |s| && s[i].id == x;
      if i < |m| { assert s[i] == m[i]; }
    }
    forall x | x in IdSet(m) ensures x in IdSet(s) {
      var i :| 0 <= i < |m| && m[i].id == x;
      assert s[i] == m[i];
    }
    assert s[|m|] == p;
  }

  /** `getDisplayData`: one pass over the menu, remembering which ids have
      gone into the favourites block. */
  method GetDisplayData(menu: seq<Product>, favorites: seq<string>) returns (r: seq<Product>)
    ensures r == FavPart(menu, set x | x in favorites) + menu
  {
    var favIds := set x | x in favorites;
    var favItems: seq<Product> := [];
    var normalItems: seq<Product> := [];
    var addedToFav: set<string> := {};
    var k := 0;
    while k < |menu|
      invariant 0 <= k <= |menu|
      invariant favItems == FavPart(menu[..k], favIds)
      invariant normalItems == menu[..k]
      invariant addedToFav == IdSet(menu[..k]) * favIds
    {
      var p := menu[k];
      assert menu[..k + 1] == menu[..k] + [p];
      assert menu[..k + 1][..k] == menu[..k];
      IdSetSnoc(menu[..k], p);
      if p.id in favIds && p.id !in addedToFav {
        favItems := favItems + [p.(cat := FavoritesCategory)];
        addedToFav := addedToFav + {p.id};
      }
      normalItems := normalItems + [p];
      k := k + 1;
    }
    assert menu[..k] == menu;
    r := favItems + normalItems;
  }

  /** Every product of the favourites block is a favourited product of the
      menu, moved to the favourites category. */
  lemma {:induction false} FavPartMembers(m: seq<Product>, favs: set<string>)
    ensures forall q :: q in FavPart(m, favs) ==> q.cat == FavoritesCategory && q.id in favs
    decreases |m|
  {
    if m != [] {
      var init := m[..|m| - 1];
      var p := m[|m| - 1];
      FavPartMembers(init, favs);
      var fi := FavPart(init, favs);
      if p.id in favs && p.id !in IdSet(init) {
        var f := fi + [p.(cat := FavoritesCategory)];
        assert forall q :: q in f ==> q in fi || q == p.(cat := FavoritesCategory);
      } else {
        assert FavPart(m, favs) == fi + [];
        assert fi + [] == fi;
      }
    }
  }

  /** The ids of the favourites block are exactly the favourited ids on the
      menu. */
  lemma {:induction false} FavPartIds(m: seq<Product>, favs: set<string>)
    ensures IdSet(FavPart(m, favs)) == IdSet(m) * favs
    decreases |m|
  {
    if m != [] {
      var init := m[..|m| - 1];
      var p := m[|m| - 1];
      FavPartIds(init, favs);
      assert m == init + [p];
      IdSetSnoc(init, p);
      var fi := FavPart(init, favs);
      if p.id in favs && p.id !in IdSet(init) {
        IdSetSnoc(fi, p.(cat := FavoritesCategory));
      } else {
        assert FavPart(m, favs) == fi + [];
        assert fi + [] == fi;
      }
    }
  }

  /** No id occurs twice in the favourites block, so it has one product per
      favourited id on the menu. */
  lemma {:induction false} FavPartDistinct(m: seq<Product>, favs: set<string>)
    ensures var f := FavPart(m, favs);
      && (forall i, j :: 0 <= i < j < |f| ==> f[i].id != f[j].id)
      && |f| == |IdSet(m) * favs|
    decreases |m|
  {
    if m != [] {
      var init := m[..|m| - 1];
      var p := m[|m| - 1];
      FavPartDistinct(init, favs);
      FavPartIds(init, favs);
      assert m == init + [p];
      IdSetSnoc(init, p);
      var fi := FavPart(init, favs);
      if p.id in favs && p.id !in IdSet(init) {
        assert IdSet(m) * favs == IdSet(init) * favs + {p.id};
        assert p.id !in IdSet(init) * favs;
        var f := fi + [p.(cat := FavoritesCategory)];
        forall i, j | 0 <= i < j < |f| ensures f[i].id != f[j].id {
          if j == |fi| {
            assert f[i] == fi[i];
            assert f[i].id in IdSet(fi);
          }
        }
      } else {
        assert IdSet(m) * favs == IdSet(init) * favs;
        assert FavPart(m, favs) == fi + [];
        assert fi + [] == fi;
      }
    }
  }

  /** The shown list is the favourites block followed by the whole menu, so
      it is longer than the menu by the number of favourited ids on it. */
  lemma DisplayLength(m: seq<Product>, favorites: seq<string>)
    ensures var favs := set x | x in favorites;
      var r := FavPart(m, favs) + m;
      && |r| == |m| + |IdSet(m) * favs|
      && r[|r| - |m|..] == m
  {
    FavPartDistinct(m, set x | x in favorites);
  }

  // ---------------------------------------------------------------------------
  // Category navigation

  /** The fixed order of `CATEGORY_ORDER`, as written. */
  const CategoryOrder: seq<string> := ["ИЗБРАННОЕ", "Популярное", "Сезонное", "Кофе", "Чай",
    "Холодные напитки", "Молочные коктейли", "Завтраки", "Круассаны", "Хот-доги", "Салаты",
    "Пицца", "Пасты", "Закуски"]

  /** `CATEGORY_ORDER.map(c => c.toUpperCase())` */
  function CategoryOrderUpper(): (u: seq<string>)
    ensures |u| == |CategoryOrder|
    ensures forall i :: 0 <= i < |u| ==> u[i] == Upper(CategoryOrder[i])
  {
    seq(|CategoryOrder|, i requires 0 <= i < |CategoryOrder| => Upper(CategoryOrder[i]))
  }

  /** `list.indexOf(x)`, with -1 for a missing element. */
  function IndexIn(list: seq<string>, x: string): (k: int)
    ensures -1 <= k < |list|
    ensures k >= 0 ==> list[k] == x && forall j :: 0 <= j < k ==> list[j] != x
    ensures k == -1 ==> x !in list
    decreases |list|
  {
    if list == [] then -1
    else if list[0] == x then 0
    else
      var k := IndexIn(list[1..], x);
      if k == -1 then -1 else k + 1
  }

  /** The comparator's key: the position in the upper-cased order, or 999. */
  function Rank(cat: string): int {
    var k := IndexIn(CategoryOrderUpper(), cat);
    if k == -1 then 999 else k
  }

  /** Listed categories rank by their position, all others rank last. */
  lemma RankRange(cat: string)
    ensures (cat in CategoryOrderUpper()) ==> 0 <= Rank(cat) < |CategoryOrder|
    ensures (cat !in CategoryOrderUpper()) ==> Rank(cat) == 999
    ensures Rank(cat) < |CategoryOrder| ==> CategoryOrderUpper()[Rank(cat)] == cat
  {
  }

  /** `[...new Set(list)]`: first occurrences, in order. */
  function Distinct(s: seq<string>): seq<string>
    decreases |s|
  {
    if s == [] then []
    else
      var init := s[..|s| - 1];
      Distinct(init) + (if s[|s| - 1] in init then [] else [s[|s| - 1]])
  }

  lemma {:induction false} DistinctIsSet(s: seq<string>)
    ensures forall i, j :: 0 <= i < j < |Distinct(s)| ==> Distinct(s)[i] != Distinct(s)[j]
    ensures forall x :: x in Distinct(s) <==> x in s
    decreases |s|
  {
    if s != [] {
      var init := s[..|s| - 1];
      var x := s[|s| - 1];
      DistinctIsSet(init);
      assert s == init + [x];
      var d := Distinct(init);
      if x !in init {
        var e := d + [x];
        forall i, j | 0 <= i < j < |e| ensures e[i] != e[j] {
          if j == |d| {
            assert e[i] == d[i];
            assert d[i] in init;
          }
        }
      }
    }
  }

  /** Stable insertion of `x` into a list sorted by `key`: after every
      element whose key is not larger. */
  function Insert(t: seq<string>, x: string, key: string -> int): seq<string>
    decreases |t|
  {
    if t == [] then [x]
    else if key(t[0]) > key(x) then [x] + t
    else [t[0]] + Insert(t[1..], x, key)
  }

  /** `sort` with a comparator on `key`; the sort is stable, so this is the
      one order it can produce. */
  function SortBy(s: seq<string>, key: string -> int): seq<string>
    decreases |s|
  {
    if s == [] then [] else Insert(SortBy(s[..|s| - 1], key), s[|s| - 1], key)
  }

  ghost predicate SortedBy(t: seq<string>, key: string -> int) {
    forall i, j :: 0 <= i < j < |t| ==> key(t[i]) <= key(t[j])
  }

  lemma SortedTail(t: seq<string>, key: string -> int)
    requires t != [] && SortedBy(t, key)
    ensures SortedBy(t[1..], key)
    ensures forall j :: 0 <= j < |t| ==> key(t[0]) <= key(t[j])
  {
    var rest := t[1..];
    forall i, j | 0 <= i < j < |rest| ensures key(rest[i]) <= key(rest[j]) {
      assert rest[i] == t[i + 1] && rest[j] == t[j + 1];
    }
  }

  lemma {:induction false} InsertElements(t: seq<string>, x: string, key: string -> int)
    ensures multiset(Insert(t, x, key)) == multiset(t) + multiset{x}
    decreases |t|
  {
    if t != [] && key(t[0]) <= key(x) {
      InsertElements(t[1..], x, key);
      assert t == [t[0]] + t[1..];
    } else if t != [] {
    }
  }

  lemma {:induction false} InsertSorted(t: seq<string>, x: string, key: string -> int)
    requires SortedBy(t, key)
    ensures SortedBy(Insert(t, x, key), key)
    decreases |t|
  {
    if t != [] && key(t[0]) <= key(x) {
      SortedTail(t, key);
      InsertSorted(t[1..], x, key);
      InsertElements(t[1..], x, key);
      ConsSorted(t[0], Insert(t[1..], x, key), t[1..], x, key);
    } else if t != [] {
      SortedTail(t, key);
      var rest := t[1..];
      assert t == [t[0]] + rest;
      assert forall j :: 0 <= j < |rest| ==> rest[j] == t[j + 1];
      ConsSorted(x, t, rest, t[0], key);
    }
  }

  /** Putting `h` in front of a sorted list of `rest`'s elements and `x`,
      none ranked below `h`, gives a sorted list. */
  lemma ConsSorted(h: string, ins: seq<string>, rest: seq<string>, x: string, key: string -> int)
    requires SortedBy(ins, key)
    requires multiset(ins) == multiset(rest) + multiset{x}
    requires key(h) <= key(x)
    requires forall j :: 0 <= j < |rest| ==> key(h) <= key(rest[j])
    ensures SortedBy([h] + ins, key)
  {
    forall j | 0 <= j < |ins| ensures key(h) <= key(ins[j]) {
      assert ins[j] in multiset(ins);
      if ins[j] != x {
        assert ins[j] in multiset(rest);
        var k :| 0 <= k < |rest| && rest[k] == ins[j];
      }
    }
    var r := [h] + ins;
    forall i, j | 0 <= i < j < |r| ensures key(r[i]) <= key(r[j]) {
      assert r[j] == ins[j - 1];
      if i > 0 {
        assert r[i] == ins[i - 1];
      }
    }
  }

  /** The sorted list is ordered by key and holds the same elements, each as
      often as before. */
  lemma {:induction false} SortBySorts(s: seq<string>, key: string -> int)
    ensures SortedBy(SortBy(s, key), key)
    ensures multiset(SortBy(s, key)) == multiset(s)
    decreases |s|
  {
    if s != [] {
      var init := s[..|s| - 1];
      SortBySorts(init, key);
      InsertSorted(SortBy(init, key), s[|s| - 1], key);
      InsertElements(SortBy(init, key), s[|s| - 1], key);
      assert s == init + [s[|s| - 1]];
    }
  }

  /** The elements with key `r`, in order. */
  function WithKey(s: seq<string>, key: string -> int, r: int): seq<string>
    decreases |s|
  {
    if s == [] then [] else (if key(s[0]) == r then [s[0]] else []) + WithKey(s[1..], key, r)
  }

  lemma {:induction false} WithKeyAppend(a: seq<string>, b: seq<string>, key: string -> int, r: int)
    ensures WithKey(a + b, key, r) == WithKey(a, key, r) + WithKey(b, key, r)
    decreases |a|
  {
    if a == [] {
      assert a + b == b;
    } else {
      var t := a[1..];
      WithKeyAppend(t, b, key, r);
      var ab := a + b;
      assert ab[0] == a[0] && ab[1..] == t + b;
      assert WithKey(ab, key, r) == (if key(a[0]) == r then [a[0]] else []) + WithKey(t + b, key, r);
    }
  }

  lemma {:induction false} WithKeyNone(t: seq<string>, key: string -> int, r: int)
    requires forall i :: 0 <= i < |t| ==> key(t[i]) > r
    ensures WithKey(t, key, r) == []
    decreases |t|
  {
    if t != [] {
      WithKeyNone(t[1..], key, r);
    }
  }

  lemma {:induction false} WithKeyInsert(t: seq<string>, x: string, key: string -> int, r: int)
    requires SortedBy(t, key)
    ensures WithKey(Insert(t, x, key), key, r) == WithKey(t, key, r) + WithKey([x], key, r)
    decreases |t|
  {
    if t == [] {
    } else if key(t[0]) > key(x) {
      WithKeyAppend([x], t, key, r);
      SortedTail(t, key);
      if key(x) == r {
        WithKeyNone(t, key, r);
      } else {
        assert WithKey([x], key, r) == [] by { assert [x][1..] == []; }
      }
    } else {
      SortedTail(t, key);
      WithKeyInsert(t[1..], x, key, r);
      var ins := Insert(t[1..], x, key);
      assert ([t[0]] + ins)[1..] == ins;
    }
  }

  /** Elements with the same key keep the order they came in. */
  lemma {:induction false} SortByStable(s: seq<string>, key: string -> int, r: int)
    ensures WithKey(SortBy(s, key), key, r) == WithKey(s, key, r)
    decreases |s|
  {
    if s != [] {
      var init := s[..|s| - 1];
      var x := s[|s| - 1];
      SortByStable(init, key, r);
      SortBySorts(init, key);
      WithKeyInsert(SortBy(init, key), x, key, r);
      assert s == init + [x];
      WithKeyAppend(init, [x], key, r);
    }
  }

  function Cats(d: seq<Product>): seq<string> {
    seq(|d|, i requires 0 <= i < |d| => d[i].cat)
  }

  /** The navigation order `renderNav` and `renderMenu` compute. */
  function NavOrder(d: seq<Product>): seq<string> {
    SortBy(Distinct(Cats(d)), Rank)
  }

  /** The navigation shows each category of the shown products exactly once,
      ordered by rank, and the unlisted ones (all of rank 999) in the order
      they first appear. */
  lemma NavOrderShape(d: seq<Product>)
    ensures var nav := NavOrder(d);
      && (forall c :: c in nav <==> c in Cats(d))
      && (forall i, j :: 0 <= i < j < |nav| ==> nav[i] != nav[j])
      && SortedBy(nav, Rank)
      && WithKey(nav, Rank, 999) == WithKey(Distinct(Cats(d)), Rank, 999)
  {
    var ds := Distinct(Cats(d));
    DistinctIsSet(Cats(d));
    SortBySorts(ds, Rank);
    SortByStable(ds, Rank, 999);
    PermutationKeepsDistinct(ds, SortBy(ds, Rank));
  }

  /** Every category of `CATEGORY_ORDER` in the navigation comes before every
      category that is not in it. */
  lemma NavKnownFirst(d: seq<Product>, i: nat, j: nat)
    requires i < j < |NavOrder(d)|
    requires NavOrder(d)[j] in CategoryOrderUpper()
    ensures NavOrder(d)[i] in CategoryOrderUpper()
    ensures Rank(NavOrder(d)[i]) <= Rank(NavOrder(d)[j]) < |CategoryOrder|
  {
    NavOrderShape(d);
    RankRange(NavOrder(d)[i]);
    RankRange(NavOrder(d)[j]);
  }

  /** A rearrangement of a list without repeats has none either. */
  lemma PermutationKeepsDistinct(s: seq<string>, t: seq<string>)
    requires multiset(s) == multiset(t)
    requires forall i, j :: 0 <= i < j < |s| ==> s[i] != s[j]
    ensures forall c :: c in t <==> c in s
    ensures forall i, j :: 0 <= i < j < |t| ==> t[i] != t[j]
  {
    forall c ensures c in t <==> c in s {
      assert c in t <==> c in multiset(t);
      assert c in s <==> c in multiset(s);
    }
    forall i, j | 0 <= i < j < |t| ensures t[i] != t[j] {
      if t[i] == t[j] {
        TwiceCountsTwice(t, i, j);
        DistinctCountsOnce(s, t[i]);
      }
    }
  }

  lemma TwiceCountsTwice(t: seq<string>, i: nat, j: nat)
    requires i < j < |t| && t[i] == t[j]
    ensures multiset(t)[t[i]] >= 2
  {
    assert t == t[..i] + [t[i]] + t[i + 1..j] + [t[j]] + t[j + 1..];
  }

  /** In a list without repeats every element occurs once. */
  lemma {:induction false} DistinctCountsOnce(s: seq<string>, x: string)
    requires forall i, j :: 0 <= i < j < |s| ==> s[i] != s[j]
    ensures multiset(s)[x] <= 1
    decreases |s|
  {
    if s != [] {
      var rest := s[1..];
      assert s == [s[0]] + rest;
      DistinctCountsOnce(rest, x);
      if s[0] == x {
        assert x !in rest by {
          forall k | 0 <= k < |rest| ensures rest[k] != x {
            assert rest[k] == s[k + 1];
          }
        }
      }
    }
  }
}
