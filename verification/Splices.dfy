/** Backslash-newlines inside a buffer, and the text that is left when they
    are deleted. */
module Splices {
  import opened Seqs

  /** Length of the line continuation at p: backslash-newline, or
      backslash-return-newline, or none. */
  function SpliceAt(buf: string, p: nat): (n: nat)
    ensures p + n <= |buf| || n == 0
  {
    if p + 1 < |buf| && buf[p] == '\\' && buf[p + 1] == '\n' then 2
    else if p + 2 < |buf| && buf[p] == '\\' && buf[p + 1] == '\r' && buf[p + 2] == '\n' then 3
    else 0
  }

  /** The text from p on with every line continuation deleted once. */
  function Spliced(buf: string, p: nat): string
    decreases |buf| - p
  {
    if p >= |buf| then []
    else if SpliceAt(buf, p) > 0 then Spliced(buf, p + SpliceAt(buf, p))
    else [buf[p]] + Spliced(buf, p + 1)
  }

  /** buf has the characters of x at i. */
  predicate Occurs(buf: string, i: int, x: string) { 0 <= i && i + |x| <= |buf| && buf[i..i + |x|] == x }

  /** The character at i is one of a backslash and the newline that follows it,
      or of a backslash, a return and a newline. */
  predicate Deleted(buf: string, i: nat) {
    || Occurs(buf, i, "\\\n") || Occurs(buf, i - 1, "\\\n")
    || Occurs(buf, i, "\\\r\n") || Occurs(buf, i - 1, "\\\r\n") || Occurs(buf, i - 2, "\\\r\n")
  }

  /** The characters from p on that are not deleted. */
  function Remaining(buf: string, p: nat): string
    decreases |buf| - p
  {
    if p >= |buf| then [] else (if Deleted(buf, p) then [] else [buf[p]]) + Remaining(buf, p + 1)
  }

  /** No continuation has begun before p and goes on there. */
  predicate Between(buf: string, p: nat) {
    !Occurs(buf, p - 1, "\\\n") && !Occurs(buf, p - 1, "\\\r\n") && !Occurs(buf, p - 2, "\\\r\n")
  }

  lemma {:induction false} OccursIs(buf: string, i: nat)
    ensures Occurs(buf, i, "\\\n") <==> i + 1 < |buf| && buf[i] == '\\' && buf[i + 1] == '\n'
    ensures Occurs(buf, i, "\\\r\n")
       <==> i + 2 < |buf| && buf[i] == '\\' && buf[i + 1] == '\r' && buf[i + 2] == '\n'
  {
    if Occurs(buf, i, "\\\n") {
      assert buf[i..i + 2][0] == buf[i] && buf[i..i + 2][1] == buf[i + 1];
    }
    if i + 1 < |buf| && buf[i] == '\\' && buf[i + 1] == '\n' {
      assert buf[i..i + 2] == "\\\n";
    }
    if Occurs(buf, i, "\\\r\n") {
      assert buf[i..i + 3][0] == buf[i] && buf[i..i + 3][1] == buf[i + 1] && buf[i..i + 3][2] == buf[i + 2];
    }
    if i + 2 < |buf| && buf[i] == '\\' && buf[i + 1] == '\r' && buf[i + 2] == '\n' {
      assert buf[i..i + 3] == "\\\r\n";
    }
  }

  /** Deleting the continuations leaves exactly the characters outside them. */
  lemma {:induction false} SplicedRemains(buf: string, p: nat)
    requires Between(buf, p)
    ensures Spliced(buf, p) == Remaining(buf, p)
    decreases |buf| - p
  {
    hide Occurs;
    if p < |buf| {
      OccursIs(buf, p);
      var n := SpliceAt(buf, p);
      OccursIs(buf, p + 1);
      if n > 0 {
        OccursIs(buf, p + 2);
        assert Deleted(buf, p) && Deleted(buf, p + 1) && (n == 3 ==> Deleted(buf, p + 2));
        SplicedRemains(buf, p + n);
        assert Remaining(buf, p) == Remaining(buf, p + 1) == Remaining(buf, p + 2);
      } else {
        SplicedRemains(buf, p + 1);
      }
    }
  }

  /** Reading from a, one character or one continuation at a time, gets to b. */
  predicate Reach(buf: string, a: nat, b: nat)
    decreases |buf| - a
  {
    a == b <= |buf| || (a < |buf| && Reach(buf, if SpliceAt(buf, a) > 0 then a + SpliceAt(buf, a) else a + 1, b))
  }

  /** The characters read on the way from a to b. */
  function Piece(buf: string, a: nat, b: nat): string
    decreases |buf| - a
  {
    if a >= b || a >= |buf| then []
    else if SpliceAt(buf, a) > 0 then Piece(buf, a + SpliceAt(buf, a), b)
    else [buf[a]] + Piece(buf, a + 1, b)
  }

  /** A buffer as the file reader leaves it: it ends with a newline that no
      backslash takes away, and holds no NUL. */
  predicate WellFormed(buf: string) {
    && (forall i :: 0 <= i < |buf| ==> buf[i] != '\0')
    && (buf != [] ==> buf[|buf| - 1] == '\n')
    && (forall i :: 0 <= i < |buf| && SpliceAt(buf, i) > 0 ==> i + SpliceAt(buf, i) < |buf|)
  }

  lemma {:induction false} SplicedEnd(buf: string, p: nat)
    requires p >= |buf|
    ensures Spliced(buf, p) == []
  {
  }

  lemma {:induction false} PieceNone(buf: string, a: nat)
    ensures Piece(buf, a, a) == []
  {
  }

  lemma {:induction false} ReachBounds(buf: string, a: nat, b: nat)
    requires Reach(buf, a, b)
    ensures a <= b <= |buf|
    decreases |buf| - a
  {
    if a != b {
      ReachBounds(buf, if SpliceAt(buf, a) > 0 then a + SpliceAt(buf, a) else a + 1, b);
    }
  }

  /** The text from a on is what was read up to b and then the text from b on. */
  lemma {:induction false} PieceThenRest(buf: string, a: nat, b: nat)
    requires Reach(buf, a, b)
    ensures Spliced(buf, a) == Piece(buf, a, b) + Spliced(buf, b)
    decreases |buf| - a
  {
    ReachBounds(buf, a, b);
    if a == b {
    } else {
      var a' := if SpliceAt(buf, a) > 0 then a + SpliceAt(buf, a) else a + 1;
      ReachBounds(buf, a', b);
      PieceThenRest(buf, a', b);
      if SpliceAt(buf, a) == 0 { Assoc([buf[a]], Piece(buf, a', b), Spliced(buf, b)); }
    }
  }

  lemma {:induction false} ReachJoin(buf: string, a: nat, b: nat, c: nat)
    requires Reach(buf, a, b) && Reach(buf, b, c)
    ensures Reach(buf, a, c) && Piece(buf, a, c) == Piece(buf, a, b) + Piece(buf, b, c)
    decreases |buf| - a
  {
    ReachBounds(buf, a, b);
    ReachBounds(buf, b, c);
    if a == b {
    } else {
      var a' := if SpliceAt(buf, a) > 0 then a + SpliceAt(buf, a) else a + 1;
      ReachBounds(buf, a', b);
      ReachJoin(buf, a', b, c);
      if SpliceAt(buf, a) == 0 { Assoc([buf[a]], Piece(buf, a', b), Piece(buf, b, c)); }
    }
  }

  /** Reading one character that begins no continuation. */
  lemma {:induction false} ReachChar(buf: string, a: nat, b: nat)
    requires Reach(buf, a, b) && b < |buf| && SpliceAt(buf, b) == 0
    ensures Reach(buf, a, b + 1) && Piece(buf, a, b + 1) == Piece(buf, a, b) + [buf[b]]
    ensures Spliced(buf, b) == [buf[b]] + Spliced(buf, b + 1)
  {
    assert Reach(buf, b + 1, b + 1) && Reach(buf, b, b + 1);
    assert Piece(buf, b + 1, b + 1) == [];
    assert Piece(buf, b, b + 1) == [buf[b]];
    ReachJoin(buf, a, b, b + 1);
  }

  /** Skipping one continuation. */
  lemma {:induction false} ReachSplice(buf: string, a: nat, b: nat)
    requires Reach(buf, a, b) && SpliceAt(buf, b) > 0
    ensures var c := b + SpliceAt(buf, b);
            && Reach(buf, a, c) && Piece(buf, a, c) == Piece(buf, a, b)
            && Spliced(buf, b) == Spliced(buf, c)
  {
    var c := b + SpliceAt(buf, b);
    assert Reach(buf, c, c) && Reach(buf, b, c);
    assert Piece(buf, c, c) == [];
    assert Piece(buf, b, c) == [];
    ReachJoin(buf, a, b, c);
    assert Piece(buf, a, b) + [] == Piece(buf, a, b);
  }

  /** The first step of a way that is not yet at its end. */
  lemma {:induction false} ReachStep(buf: string, a: nat, b: nat)
    requires Reach(buf, a, b) && a < b
    ensures var n := if SpliceAt(buf, a) > 0 then SpliceAt(buf, a) else 1;
            && a + n <= b <= |buf| && Reach(buf, a + n, b)
            && Piece(buf, a, b) == (if SpliceAt(buf, a) > 0 then [] else [buf[a]]) + Piece(buf, a + n, b)
  {
    ReachBounds(buf, if SpliceAt(buf, a) > 0 then a + SpliceAt(buf, a) else a + 1, b);
  }

  /** In a text without continuations nothing is deleted. */
  lemma {:induction false} SplicedPlain(buf: string, p: nat)
    requires p <= |buf| && forall i :: p <= i < |buf| ==> SpliceAt(buf, i) == 0
    ensures Spliced(buf, p) == buf[p..]
    decreases |buf| - p
  {
    if p < |buf| {
      SplicedPlain(buf, p + 1);
    }
  }
}
