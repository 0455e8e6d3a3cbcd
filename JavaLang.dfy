/** The pieces of java.lang the plugin leans on: null-able references, the
    exceptions its code can raise, and the String operations `replaceAll`
    (with a literal one-character pattern), `split` (with a one-character
    delimiter) and `String.valueOf(long)`. */
module JavaLang {

  /** A Java reference that may be null. */
  datatype Option<T> = None | Some(value: T)

  /** A method that either returns a value or throws. */
  datatype Result<T> = Success(value: T) | Failure(error: JavaException)

  /** The exceptions the modelled code raises or lets escape. */
  datatype JavaException =
    | NullPointerException
    | ArrayIndexOutOfBoundsException
    | UserExistsException      // addUser rejects a screen name or e-mail already in use
    | NoSuchUserException      // the directory importer found no such user
    | ImportException          // the directory importer failed with anything else but a SystemException

  // ---------------------------------------------------------------------------
  // replaceAll
  // ---------------------------------------------------------------------------

  /** `s.replaceAll(c, r)` where the pattern is the literal character `c` and the
      replacement `r` holds neither `$` nor `\`: every occurrence of `c` becomes `r`. */
  function ReplaceAll(s: string, c: char, r: string): (t: string)
    ensures c !in r ==> c !in t
    ensures c !in s ==> t == s
  {
    if s == [] then []
    else
      assert s == [s[0]] + s[1..];
      (if s[0] == c then r else [s[0]]) + ReplaceAll(s[1..], c, r)
  }

  /** The characters of `s.replaceAll(c, r)`: those of `s` other than `c`, and
      those of `r` when `c` occurs. */
  lemma {:induction false} ReplaceAllChars(s: string, c: char, r: string)
    ensures forall x :: x in ReplaceAll(s, c, r) <==> (x in s && x != c) || (c in s && x in r)
  {
    if s != [] {
      ReplaceAllChars(s[1..], c, r);
      assert s == [s[0]] + s[1..];
    }
  }

  /** `replaceAll` works piece by piece. */
  lemma {:induction false} ReplaceAllAppend(a: string, b: string, c: char, r: string)
    ensures ReplaceAll(a + b, c, r) == ReplaceAll(a, c, r) + ReplaceAll(b, c, r)
  {
    if a == [] {
      assert a + b == b;
    } else {
      var ab := a + b;
      assert ab != [] && ab[0] == a[0];
      assert ab[1..] == a[1..] + b;
      var head := if a[0] == c then r else [a[0]];
      ReplaceAllAppend(a[1..], b, c, r);
      calc {
        ReplaceAll(ab, c, r);
        head + ReplaceAll(ab[1..], c, r);
        head + (ReplaceAll(a[1..], c, r) + ReplaceAll(b, c, r));
        (head + ReplaceAll(a[1..], c, r)) + ReplaceAll(b, c, r);
        ReplaceAll(a, c, r) + ReplaceAll(b, c, r);
      }
    }
  }

  // ---------------------------------------------------------------------------
  // split
  // ---------------------------------------------------------------------------

  /** Every piece of `s` between occurrences of `d`, empty pieces included:
      one more piece than there are `d`s in `s`. */
  function Pieces(s: string, d: char): (ps: seq<string>)
    ensures |ps| >= 1
    ensures forall i | 0 <= i < |ps| :: d !in ps[i]
    ensures d !in s ==> ps == [s]
  {
    if s == [] then [""]
    else
      assert s == [s[0]] + s[1..];
      var rest := Pieces(s[1..], d);
      if s[0] == d then [""] + rest
      else [[s[0]] + rest[0]] + rest[1..]
  }

  /** `String.join` with a one-character separator. */
  function Join(ps: seq<string>, d: char): string
  {
    if |ps| == 0 then ""
    else if |ps| == 1 then ps[0]
    else ps[0] + [d] + Join(ps[1..], d)
  }

  /** The removal of trailing empty strings that `split` performs. */
  function DropTrailingEmpty(ps: seq<string>): (r: seq<string>)
    ensures r <= ps
    ensures |r| > 0 ==> r[|r| - 1] != ""
    ensures forall i | |r| <= i < |ps| :: ps[i] == ""
  {
    if |ps| == 0 then []
    else if ps[|ps| - 1] == "" then DropTrailingEmpty(ps[..|ps| - 1])
    else ps
  }

  /** `s.split(d)` for a delimiter that is not a regular-expression
      metacharacter: when `d` does not occur the result is `[s]` (so
      `"".split(d)` is `[""]`); otherwise the pieces between the `d`s with
      every trailing empty piece removed (so `":".split(":")` is empty). */
  function Split(s: string, d: char): (r: seq<string>)
    ensures forall i | 0 <= i < |r| :: d !in r[i]
  {
    if d !in s then [s] else DropTrailingEmpty(Pieces(s, d))
  }

  /** The first piece is the text before the first `d`. */
  lemma {:induction false} FirstPiece(s: string, d: char)
    ensures Pieces(s, d)[0] <= s
    ensures |Pieces(s, d)[0]| < |s| ==> s[|Pieces(s, d)[0]|] == d
  {
    if s != [] {
      FirstPiece(s[1..], d);
    }
  }

  /** A character absent from the string is absent from every piece. */
  lemma {:induction false} PiecesAvoid(s: string, d: char, c: char)
    requires c !in s
    ensures forall i | 0 <= i < |Pieces(s, d)| :: c !in Pieces(s, d)[i]
  {
    if s != [] {
      assert s == [s[0]] + s[1..];
      PiecesAvoid(s[1..], d, c);
    }
  }

  /** `split` keeps a prefix of the pieces and drops only empty ones. */
  lemma SplitPieces(s: string, d: char)
    ensures Split(s, d) <= Pieces(s, d)
    ensures forall i | |Split(s, d)| <= i < |Pieces(s, d)| :: Pieces(s, d)[i] == ""
  {
  }

  /** The last piece of a string is what follows its last delimiter. */
  lemma {:induction false} LastPiece(prefix: string, d: char, name: string)
    requires d !in name
    ensures |Pieces(prefix + [d] + name, d)| >= 2
    ensures Pieces(prefix + [d] + name, d)[|Pieces(prefix + [d] + name, d)| - 1] == name
  {
    var s := prefix + [d] + name;
    if prefix == [] {
      assert s[1..] == name;
    } else {
      LastPiece(prefix[1..], d, name);
      assert s[1..] == prefix[1..] + [d] + name;
    }
  }

  /** A join holds only the separator and characters of its parts. */
  lemma {:induction false} JoinAvoids(ps: seq<string>, d: char, c: char)
    requires c != d
    requires forall i | 0 <= i < |ps| :: c !in ps[i]
    ensures c !in Join(ps, d)
  {
    if |ps| > 1 {
      JoinAvoids(ps[1..], d, c);
    }
  }

  /** Appending one part to a non-empty join appends the separator and the part. */
  lemma {:induction false} JoinSnoc(ps: seq<string>, p: string, d: char)
    requires |ps| >= 1
    ensures Join(ps + [p], d) == Join(ps, d) + [d] + p
  {
    if |ps| > 1 {
      JoinSnoc(ps[1..], p, d);
      assert (ps + [p])[1..] == ps[1..] + [p];
    }
  }

  /** Joining the pieces of a string gives the string back. */
  lemma {:induction false} JoinPieces(s: string, d: char)
    ensures Join(Pieces(s, d), d) == s
  {
    if s != [] {
      var rest := Pieces(s[1..], d);
      JoinPieces(s[1..], d);
      if s[0] == d {
        assert ([""] + rest)[1..] == rest;
      } else if |rest| == 1 {
        assert s == [s[0]] + s[1..];
      } else {
        var ps := [[s[0]] + rest[0]] + rest[1..];
        assert ps[1..] == rest[1..];
        assert Join(rest, d) == rest[0] + [d] + Join(rest[1..], d);
        assert s == [s[0]] + s[1..];
      }
    }
  }

  /** Splitting a join of `d`-free strings gives them back: `Pieces` inverts `Join`. */
  lemma {:induction false} PiecesJoin(ps: seq<string>, d: char)
    requires |ps| >= 1
    requires forall i | 0 <= i < |ps| :: d !in ps[i]
    ensures Pieces(Join(ps, d), d) == ps
  {
    if |ps| == 1 {
    } else {
      PiecesJoin(ps[1..], d);
      PiecesAfterPrefix(ps[0], d, Join(ps[1..], d));
      assert ps == [ps[0]] + ps[1..];
    }
  }

  /** A `d`-free prefix followed by `d` contributes exactly one leading piece. */
  lemma {:induction false} PiecesAfterPrefix(p: string, d: char, t: string)
    requires d !in p
    ensures Pieces(p + [d] + t, d) == [p] + Pieces(t, d)
  {
    if p == [] {
      assert ([d] + t)[1..] == t;
    } else {
      var x := p + [d] + t;
      assert x[0] == p[0] && x[0] != d;
      assert x[1..] == p[1..] + [d] + t;
      PiecesAfterPrefix(p[1..], d, t);
      var rest := Pieces(x[1..], d);
      assert rest == [p[1..]] + Pieces(t, d);
      assert rest[0] == p[1..] && rest[1..] == Pieces(t, d);
      assert [p[0]] + p[1..] == p;
      assert Pieces(x, d) == [[x[0]] + rest[0]] + rest[1..];
    }
  }

  /** A trailing delimiter adds one empty piece. */
  lemma {:induction false} PiecesSnocDelimiter(s: string, d: char)
    ensures Pieces(s + [d], d) == Pieces(s, d) + [""]
  {
    if s == [] {
      assert ([d])[1..] == [];
    } else {
      var x := s + [d];
      assert x[0] == s[0] && x[1..] == s[1..] + [d];
      PiecesSnocDelimiter(s[1..], d);
    }
  }

  /** Every piece is empty exactly when the string is made of `d`s only. */
  lemma {:induction false} PiecesAllEmpty(s: string, d: char)
    ensures (forall i | 0 <= i < |Pieces(s, d)| :: Pieces(s, d)[i] == "")
            <==> (forall i | 0 <= i < |s| :: s[i] == d)
  {
    if s != [] {
      PiecesAllEmpty(s[1..], d);
      var rest := Pieces(s[1..], d);
      if s[0] == d {
        var ps := Pieces(s, d);
        assert ps == [""] + rest;
        assert forall i | 0 <= i < |rest| :: ps[i + 1] == rest[i];
        assert forall i | 1 <= i < |ps| :: ps[i] == rest[i - 1];
        assert forall i | 0 <= i < |s[1..]| :: s[1..][i] == s[i + 1];
        assert forall i | 1 <= i < |s| :: s[i] == s[1..][i - 1];
      } else {
        assert Pieces(s, d)[0] != "";
      }
    }
  }

  /** `split` returns nothing exactly when the input is non-empty and made of
      delimiters only; that is when `parts[parts.length - 1]` and `emails[0]`
      throw. */
  lemma SplitEmpty(s: string, d: char)
    ensures |Split(s, d)| == 0 <==> |s| > 0 && forall i | 0 <= i < |s| :: s[i] == d
  {
    PiecesAllEmpty(s, d);
    SplitPieces(s, d);
    if d in s {
      var ps := Pieces(s, d);
      if |Split(s, d)| == 0 {
        assert forall i | 0 <= i < |ps| :: ps[i] == "";
      } else {
        assert Split(s, d)[0] == ps[0];
      }
    } else if |s| > 0 {
      assert s[0] != d;
    }
  }

  

  // ---------------------------------------------------------------------------
  // String.valueOf(long)
  // ---------------------------------------------------------------------------

  function DigitChar(n: nat): char
    requires n < 10
  {
    "0123456789"[n]
  }

  /** The decimal numeral of a natural number, most significant digit first. */
  function NatToString(n: nat): (s: string)
    ensures |s| > 0 && forall i | 0 <= i < |s| :: '0' <= s[i] <= '9'
  {
    if n < 10 then [DigitChar(n)] else NatToString(n / 10) + [DigitChar(n % 10)]
  }

  /** `String.valueOf(long)`: a minus sign before the numeral of a negative value. */
  function LongToString(n: int): string
  {
    if n < 0 then "-" + NatToString(-n) else NatToString(n)
  }

  /** The value of a string of decimal digits (the inverse of `NatToString`). */
  function ParseNat(s: string): int
  {
    if s == [] then 0 else ParseNat(s[..|s| - 1]) * 10 + (s[|s| - 1] as int - '0' as int)
  }

  /** `Long.parseLong` on a numeral that `String.valueOf(long)` wrote. */
  function ParseLong(s: string): int
  {
    if s != [] && s[0] == '-' then -ParseNat(s[1..]) else ParseNat(s)
  }

  lemma {:induction false} ParseNatToString(n: nat)
    ensures ParseNat(NatToString(n)) == n
  {
    if n >= 10 {
      ParseNatToString(n / 10);
      var s := NatToString(n / 10) + [DigitChar(n % 10)];
      assert s[..|s| - 1] == NatToString(n / 10);
    }
  }

  /** `String.valueOf(long)` loses nothing: parsing the numeral gives the value
      back, and the numeral has a leading minus sign exactly for a negative value. */
  lemma LongToStringRoundTrip(n: int)
    ensures |LongToString(n)| > 0
    ensures (LongToString(n)[0] == '-') == (n < 0)
    ensures ParseLong(LongToString(n)) == n
  {
    if n < 0 {
      var digits := NatToString(-n);
      var s := "-" + digits;
      assert LongToString(n) == s;
      assert s[0] == '-' && s[1..] == digits;
      ParseNatToString(-n);
    } else {
      var digits := NatToString(n);
      assert LongToString(n) == digits;
      assert '0' <= digits[0] <= '9';
      ParseNatToString(n);
    }
  }
}
