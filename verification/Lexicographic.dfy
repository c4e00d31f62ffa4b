/** The order of texts and of tuples of texts, compared item by item. */
module Lexicographic {

  predicate TextLess(a: string, b: string) {
    b != [] && (a == [] || a[0] < b[0] || (a[0] == b[0] && TextLess(a[1..], b[1..])))
  }

  predicate TextsLess(a: seq<string>, b: seq<string>) {
    b != [] && (a == [] || TextLess(a[0], b[0]) || (a[0] == b[0] && TextsLess(a[1..], b[1..])))
  }

  lemma {:induction false} TextTrichotomy(a: string, b: string)
    ensures a == b || TextLess(a, b) || TextLess(b, a)
  {
    if a != [] && b != [] {
      TextTrichotomy(a[1..], b[1..]);
      assert a == [a[0]] + a[1..] && b == [b[0]] + b[1..];
    }
  }

  lemma {:induction false} TextTransitive(a: string, b: string, c: string)
    requires TextLess(a, b) && TextLess(b, c)
    ensures TextLess(a, c)
  {
    if a != [] && a[0] == b[0] && b[0] == c[0] {
      TextTransitive(a[1..], b[1..], c[1..]);
    }
  }

  lemma {:induction false} TextIrreflexive(a: string)
    ensures !TextLess(a, a)
  {
    if a != [] {
      TextIrreflexive(a[1..]);
    }
  }

  lemma {:induction false} TextsTrichotomy(a: seq<string>, b: seq<string>)
    ensures a == b || TextsLess(a, b) || TextsLess(b, a)
  {
    if a != [] && b != [] {
      TextTrichotomy(a[0], b[0]);
      TextsTrichotomy(a[1..], b[1..]);
      assert a == [a[0]] + a[1..] && b == [b[0]] + b[1..];
    }
  }

  lemma {:induction false} TextsTransitive(a: seq<string>, b: seq<string>, c: seq<string>)
    requires TextsLess(a, b) && TextsLess(b, c)
    ensures TextsLess(a, c)
  {
    if a != [] {
      if TextLess(a[0], b[0]) && TextLess(b[0], c[0]) {
        TextTransitive(a[0], b[0], c[0]);
      } else if a[0] == b[0] && b[0] == c[0] && !TextLess(a[0], c[0]) {
        TextIrreflexive(a[0]);
        TextsTransitive(a[1..], b[1..], c[1..]);
      }
    }
  }

  lemma {:induction false} TextsIrreflexive(a: seq<string>)
    ensures !TextsLess(a, a)
  {
    if a != [] {
      TextIrreflexive(a[0]);
      TextsIrreflexive(a[1..]);
    }
  }
}
