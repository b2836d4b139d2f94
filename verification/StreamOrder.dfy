/** The order in which a sealed session reports its streams. */
module StreamOrder {
  import opened ReplicaDisk

  predicate Less(a: string, b: string) {
    b != "" && (a == "" || a[0] < b[0] || (a[0] == b[0] && Less(a[1..], b[1..])))
  }

  /** The texts agree up to `n`, where the first one ends or has the smaller character. */
  predicate FirstDiffer(a: string, b: string, n: nat) {
    n <= |a| && n < |b| && a[..n] == b[..n] && (n == |a| || a[n] < b[n])
  }

  lemma {:induction false} LessIsLexicographic(a: string, b: string)
    ensures Less(a, b) <==> exists n: nat :: FirstDiffer(a, b, n)
    decreases |a|
  {
    if b == "" {
    } else if a == "" || a[0] < b[0] {
      assert FirstDiffer(a, b, 0);
    } else {
      if a[0] == b[0] {
        LessIsLexicographic(a[1..], b[1..]);
        if n: nat :| FirstDiffer(a[1..], b[1..], n) {
          assert a[..n + 1] == [a[0]] + a[1..][..n] && b[..n + 1] == [b[0]] + b[1..][..n];
          assert FirstDiffer(a, b, n + 1);
        }
      }
      if n: nat :| FirstDiffer(a, b, n) {
        assert n > 0 && a[..n][0] == a[0] && b[..n][0] == b[0];
        assert a[1..][..n - 1] == a[..n][1..] && b[1..][..n - 1] == b[..n][1..];
        assert FirstDiffer(a[1..], b[1..], n - 1);
      }
    }
  }

  lemma {:induction false} LessIsTotal(a: string, b: string)
    ensures a == b || Less(a, b) || Less(b, a)
    decreases |a|
  {
    if a != "" && b != "" && a[0] == b[0] {
      LessIsTotal(a[1..], b[1..]);
      assert a == [a[0]] + a[1..] && b == [b[0]] + b[1..];
    }
  }

  lemma {:induction false} LessIsTransitive(a: string, b: string, c: string)
    requires Less(a, b) && Less(b, c)
    ensures Less(a, c)
    decreases |a|
  {
    if a != "" && a[0] == b[0] == c[0] {
      LessIsTransitive(a[1..], b[1..], c[1..]);
    }
  }

  /** Strictly by prefix, so no prefix is there twice. */
  predicate InOrder(heads: seq<StreamHead>) {
    forall i, j :: 0 <= i < j < |heads| ==> Less(heads[i].stream.prefix, heads[j].stream.prefix)
  }

  function Insert(heads: seq<StreamHead>, head: StreamHead): (r: seq<StreamHead>)
    ensures forall h :: h in r <==> h == head || h in heads
  {
    if heads == [] then [head]
    else if Less(head.stream.prefix, heads[0].stream.prefix) then [head] + heads
    else [heads[0]] + Insert(heads[1..], head)
  }

  lemma {:induction false} InsertKeepsOrder(heads: seq<StreamHead>, head: StreamHead)
    requires InOrder(heads) && forall h :: h in heads ==> h.stream.prefix != head.stream.prefix
    ensures InOrder(Insert(heads, head))
  {
    if heads != [] {
      var first := heads[0].stream.prefix;
      if Less(head.stream.prefix, first) {
        forall j | 0 <= j < |heads| ensures Less(head.stream.prefix, heads[j].stream.prefix) {
          if j > 0 {
            LessIsTransitive(head.stream.prefix, first, heads[j].stream.prefix);
          }
        }
      } else {
        LessIsTotal(head.stream.prefix, first);
        InsertKeepsOrder(heads[1..], head);
        var rest := Insert(heads[1..], head);
        forall j | 0 <= j < |rest| ensures Less(first, rest[j].stream.prefix) {
          assert rest[j] in rest;
        }
      }
    }
  }

  method SortByPrefix(heads: set<StreamHead>) returns (sorted: seq<StreamHead>)
    requires forall a, b :: a in heads && b in heads && a != b ==> a.stream.prefix != b.stream.prefix
    ensures InOrder(sorted) && forall h :: h in sorted <==> h in heads
  {
    sorted := [];
    var rest := heads;
    while rest != {}
      invariant rest <= heads && InOrder(sorted) && forall h :: h in sorted <==> h in heads - rest
      decreases |rest|
    {
      var head :| head in rest;
      InsertKeepsOrder(sorted, head);
      sorted := Insert(sorted, head);
      rest := rest - {head};
    }
  }
}
