/** Python's ordering of strings: by the first differing character, a prefix first. */
module Text {
  predicate Less(a: string, b: string) {
    if b == "" then false
    else if a == "" then true
    else if a[0] != b[0] then a[0] < b[0]
    else Less(a[1..], b[1..])
  }

  lemma {:induction false} LessIsIrreflexive(a: string)
    ensures !Less(a, a)
  {
    if a != "" {
      LessIsIrreflexive(a[1..]);
    }
  }

  lemma {:induction false} LessIsTransitive(a: string, b: string, c: string)
    requires Less(a, b) && Less(b, c)
    ensures Less(a, c)
  {
    if a != "" && a[0] == b[0] == c[0] {
      LessIsTransitive(a[1..], b[1..], c[1..]);
    }
  }

  /** They agree on their first i characters. */
  ghost predicate Agree(a: string, b: string, i: nat) {
    i <= |a| && i <= |b| && a[..i] == b[..i]
  }

  /** a comes before b exactly when it is a proper prefix of b, or has the smaller character
      where they first differ. */
  lemma {:induction false} LessExactly(a: string, b: string)
    ensures Less(a, b) <==> a < b || exists i: nat :: Agree(a, b, i) && i < |a| && i < |b| && a[i] < b[i]
  {
    if a != "" && b != "" {
      if a[0] == b[0] {
        LessExactly(a[1..], b[1..]);
        assert a == [a[0]] + a[1..] && b == [b[0]] + b[1..];
        assert a < b <==> a[1..] < b[1..];
        forall i: nat
          ensures Agree(a, b, i + 1) <==> Agree(a[1..], b[1..], i)
        {
          OneFurther(a, b, i);
        }
        if i: nat :| Agree(a, b, i) && i < |a| && i < |b| && a[i] < b[i] {
          assert Agree(a[1..], b[1..], i - 1);
        }
        if i: nat :| Agree(a[1..], b[1..], i) && i < |a| - 1 && i < |b| - 1 && a[1..][i] < b[1..][i] {
          assert Agree(a, b, i + 1);
        }
      } else {
        assert Agree(a, b, 0);
        forall i: nat | Agree(a, b, i)
          ensures i == 0
        {
          AgreesOnFirst(a, b, i);
        }
      }
    }
  }

  lemma AgreesOnFirst(a: string, b: string, i: nat)
    requires Agree(a, b, i)
    ensures i > 0 ==> a[0] == b[0]
  {
    if i > 0 {
      assert a[..i][0] == b[..i][0];
    }
  }

  lemma OneFurther(a: string, b: string, i: nat)
    requires a != "" && b != "" && a[0] == b[0]
    ensures Agree(a, b, i + 1) <==> Agree(a[1..], b[1..], i)
  {
    if i + 1 <= |a| && i + 1 <= |b| {
      assert a[..i + 1] == [a[0]] + a[1..][..i] && b[..i + 1] == [b[0]] + b[1..][..i];
      assert a[..i + 1][1..] == a[1..][..i] && b[..i + 1][1..] == b[1..][..i];
    }
  }

  lemma LessIsAsymmetric(a: string, b: string)
    requires Less(a, b)
    ensures !Less(b, a) && a != b
  {
    LessIsIrreflexive(a);
    if Less(b, a) {
      LessIsTransitive(a, b, a);
    }
  }
}
