/** The order of Go strings, by code point. */
module TextOrder {
  import opened Sorting

  /** The order of sort.Strings. */
  predicate TextLe(a: string, b: string) {
    a == "" || (b != "" && (a[0] < b[0] || (a[0] == b[0] && TextLe(a[1..], b[1..]))))
  }

  lemma {:induction false} TextLeIsTotal(a: string, b: string)
    ensures TextLe(a, b) || TextLe(b, a)
    ensures TextLe(a, b) && TextLe(b, a) ==> a == b
  {
    if a != "" && b != "" && a[0] == b[0] {
      TextLeIsTotal(a[1..], b[1..]);
      assert a == [a[0]] + a[1..] && b == [b[0]] + b[1..];
    }
  }

  lemma {:induction false} TextLeIsTransitive(a: string, b: string, c: string)
    requires TextLe(a, b) && TextLe(b, c)
    ensures TextLe(a, c)
  {
    if a != "" && a[0] == b[0] && b[0] == c[0] {
      TextLeIsTransitive(a[1..], b[1..], c[1..]);
    }
  }

  lemma TextLeIsOrder()
    ensures IsOrder(TextLe) && forall a, b :: TextLe(a, b) && TextLe(b, a) ==> a == b
  {
    forall a, b ensures (TextLe(a, b) || TextLe(b, a)) && (TextLe(a, b) && TextLe(b, a) ==> a == b) {
      TextLeIsTotal(a, b);
    }
    forall a, b, c | TextLe(a, b) && TextLe(b, c) ensures TextLe(a, c) {
      TextLeIsTransitive(a, b, c);
    }
  }

  /** A set of texts in ascending order: what ranging over a map and then sort.Strings gives. */
  method SortedTexts(texts: set<string>) returns (sorted: seq<string>)
    ensures Sorted(TextLe, sorted) && forall text :: text in sorted <==> text in texts
  {
    var drawn: seq<string>, rest := [], texts;
    while rest != {}
      invariant rest <= texts && forall text :: text in drawn <==> text in texts - rest
      decreases rest
    {
      var text :| text in rest;
      drawn, rest := drawn + [text], rest - {text};
    }
    sorted := Sort(TextLe, drawn);
    TextLeIsOrder();
    SortSorts(TextLe, drawn);
    assert forall text :: text in sorted <==> text in multiset(sorted);
    assert forall text :: text in drawn <==> text in multiset(drawn);
  }
}
