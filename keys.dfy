/**
 * IndexedDB keys and the order in which IndexedDB compares them.
 *
 * The stores of the client database are keyed by their records' `id`; the
 * `sentAt` index of the messages store is keyed by the records' `sentAt`.
 * Of IndexedDB's key kinds the model keeps numbers and strings: every number
 * comes before every string, numbers compare numerically and strings compare
 * lexicographically, character by character.
 */
module Keys {
  import opened Ordering

  datatype Key = NumKey(n: int) | StrKey(s: string)

  /** Lexicographic order on strings: a proper prefix comes first. */
  predicate StrLess(a: string, b: string)
  {
    if a == [] then b != []
    else if b == [] then false
    else a[0] < b[0] || (a[0] == b[0] && StrLess(a[1..], b[1..]))
  }

  predicate KeyLess(a: Key, b: Key)
  {
    match (a, b)
    case (NumKey(x), NumKey(y)) => x < y
    case (NumKey(_), StrKey(_)) => true
    case (StrKey(_), NumKey(_)) => false
    case (StrKey(x), StrKey(y)) => StrLess(x, y)
  }

  /**
   * The order of an index's entries: by index key, and among records with the
   * same index key, by primary key.
   */
  predicate EntryLess(a: (Key, Key), b: (Key, Key))
  {
    KeyLess(a.0, b.0) || (a.0 == b.0 && KeyLess(a.1, b.1))
  }

  lemma {:induction false} StrLessIrreflexive(a: string)
    ensures !StrLess(a, a)
    decreases |a|
  {
    if a != [] {
      StrLessIrreflexive(a[1..]);
    }
  }

  lemma {:induction false} StrLessTransitive(a: string, b: string, c: string)
    requires StrLess(a, b) && StrLess(b, c)
    ensures StrLess(a, c)
    decreases |a|
  {
    if a != [] && a[0] == b[0] && b[0] == c[0] {
      StrLessTransitive(a[1..], b[1..], c[1..]);
    }
  }

  lemma {:induction false} StrLessTotal(a: string, b: string)
    ensures a == b || StrLess(a, b) || StrLess(b, a)
    decreases |a|
  {
    if a != [] && b != [] && a[0] == b[0] {
      StrLessTotal(a[1..], b[1..]);
      if a[1..] == b[1..] {
        assert a == [a[0]] + a[1..] && b == [b[0]] + b[1..];
      }
    }
  }

  lemma StrLessIsStrictTotal()
    ensures StrictTotalOrder(StrLess)
  {
    forall a: string ensures !StrLess(a, a) {
      StrLessIrreflexive(a);
    }
    forall a: string, b: string, c: string | StrLess(a, b) && StrLess(b, c)
      ensures StrLess(a, c)
    {
      StrLessTransitive(a, b, c);
    }
    forall a: string, b: string ensures a == b || StrLess(a, b) || StrLess(b, a) {
      StrLessTotal(a, b);
    }
  }

  lemma KeyLessIsStrictTotal()
    ensures StrictTotalOrder(KeyLess)
  {
    StrLessIsStrictTotal();
    forall a: Key, b: Key, c: Key | KeyLess(a, b) && KeyLess(b, c)
      ensures KeyLess(a, c)
    {
      if a.StrKey? {
        StrLessTransitive(a.s, b.s, c.s);
      }
    }
    forall a: Key, b: Key ensures a == b || KeyLess(a, b) || KeyLess(b, a) {
      if a.StrKey? && b.StrKey? {
        StrLessTotal(a.s, b.s);
      }
    }
  }

  lemma EntryLessIsStrictTotal()
    ensures StrictTotalOrder(EntryLess)
  {
    KeyLessIsStrictTotal();
    forall a: (Key, Key), b: (Key, Key), c: (Key, Key) | EntryLess(a, b) && EntryLess(b, c)
      ensures EntryLess(a, c)
    {
    }
    forall a: (Key, Key), b: (Key, Key) ensures a == b || EntryLess(a, b) || EntryLess(b, a) {
    }
  }
}
