/** The composite cart key `itemId + "-" + options.sort().join(",")`, shared by the
    cart handlers (backend/controllers/cartController.js:9-10) and the order line
    formatter (backend/controllers/orderController.js:121-122). */
module CartKey {
  import opened Strings

  /** The key of an item with a list of selected option labels. */
  function Key(itemId: string, options: seq<string>): (r: string)
    ensures |r| > |itemId| && r[..|itemId| + 1] == itemId + "-"
    ensures |options| == 0 ==> r == itemId + "-"
    ensures |options| == 1 ==> r == itemId + "-" + options[0]
  {
    itemId + "-" + Join(Sort(options), ",")
  }

  /** The key sees the options only as a multiset: reordering (or sorting) them does
      not change it. */
  lemma KeyPermutationInvariant(itemId: string, xs: seq<string>, ys: seq<string>)
    requires multiset(xs) == multiset(ys)
    ensures Key(itemId, xs) == Key(itemId, ys)
  {
    SortPermutationInvariant(xs, ys);
  }

  /** Option labels the key can tell apart: non-empty and without a comma. */
  predicate PlainLabels(options: seq<string>)
  {
    SeparableBy(options, ',')
  }

  /** For item ids without a dash and plain labels, two keys are equal exactly when
      the item ids are equal and the option lists are permutations of each other. */
  lemma KeyInjective(id1: string, o1: seq<string>, id2: string, o2: seq<string>)
    requires '-' !in id1 && '-' !in id2
    requires PlainLabels(o1) && PlainLabels(o2)
    ensures Key(id1, o1) == Key(id2, o2) <==> id1 == id2 && multiset(o1) == multiset(o2)
  {
    if Key(id1, o1) == Key(id2, o2) {
      var s1, s2 := Sort(o1), Sort(o2);
      SplitAtSeparator(id1, id2, '-', Join(s1, ","), Join(s2, ","));
      SortedKeepsLabelsPlain(o1);
      SortedKeepsLabelsPlain(o2);
      JoinInjective(s1, s2, ',');
    }
    if id1 == id2 && multiset(o1) == multiset(o2) {
      KeyPermutationInvariant(id1, o1, o2);
    }
  }

  /** Sorting moves labels around but keeps every one of them. */
  lemma {:induction false} SortedKeepsLabelsPlain(options: seq<string>)
    requires PlainLabels(options)
    ensures PlainLabels(Sort(options))
  {
    var s := Sort(options);
    forall i | 0 <= i < |s|
      ensures s[i] != "" && ',' !in s[i]
    {
      assert s[i] in multiset(options);
    }
  }

  /** Without the conditions above the key is not injective: a label holding a comma
      gives the same key as the two labels around that comma. */
  lemma KeyCollidesOnCommaLabel()
    ensures Key("pizza", ["egg,ham"]) == Key("pizza", ["egg", "ham"])
    ensures multiset(["egg,ham"]) != multiset(["egg", "ham"])
  {
    assert Le("egg", "ham");
    assert Sort(["ham"]) == ["ham"];
    assert Sort(["egg", "ham"]) == Insert("egg", Sort(["ham"]));
    assert "egg,ham" !in multiset(["egg", "ham"]);
  }
}
