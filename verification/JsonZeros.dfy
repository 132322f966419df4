/** JSON texts compared as values: by their bytes, but for the signs of their zeros. */
module JsonZeros {
  import opened Wrappers

  /** Where a scan of a JSON text is: outside strings, in one, or after a backslash in one. */
  datatype Place = Outside | InString | Escaped

  /** The text starts with the number `-0.0`. */
  predicate SignedZero(t: seq<byte>) {
    |t| >= 4 && t[..4] == [45, 48, 46, 48] && (|t| > 4 ==> !(48 <= t[4] <= 57))
  }

  /** A JSON text with no sign on any zero. */
  function WithoutZeroSigns(t: seq<byte>, place: Place): seq<byte> {
    if t == [] then []
    else
      match place
      case Outside =>
        if SignedZero(t) then WithoutZeroSigns(t[1..], Outside)
        else [t[0]] + WithoutZeroSigns(t[1..], if t[0] == 34 then InString else Outside)
      case InString =>
        [t[0]] + WithoutZeroSigns(t[1..], if t[0] == 92 then Escaped else if t[0] == 34 then Outside else InString)
      case Escaped => [t[0]] + WithoutZeroSigns(t[1..], InString)
  }

  /** Spawn arguments are compared as JSON values: numbers by floating-point equality, so without the signs of zeros. */
  predicate ArgsSame(a: seq<byte>, b: seq<byte>) {
    WithoutZeroSigns(a, Outside) == WithoutZeroSigns(b, Outside)
  }

  function WithoutMinus(t: seq<byte>): seq<byte> {
    if t == [] then [] else (if t[0] == 45 then [] else [t[0]]) + WithoutMinus(t[1..])
  }

  lemma {:induction false} OnlyMinusGoes(t: seq<byte>, place: Place)
    ensures WithoutMinus(WithoutZeroSigns(t, place)) == WithoutMinus(t)
  {
    if t != [] {
      OnlyMinusGoes(t[1..], Outside);
      OnlyMinusGoes(t[1..], InString);
      OnlyMinusGoes(t[1..], Escaped);
      var r := WithoutZeroSigns(t, place);
      assert r != [] && r[0] == t[0] ==> r == [t[0]] + r[1..];
    }
  }

  /** Texts that compare equal agree in everything but minus signs. */
  lemma SameButForMinus(a: seq<byte>, b: seq<byte>)
    requires ArgsSame(a, b)
    ensures WithoutMinus(a) == WithoutMinus(b)
  {
    OnlyMinusGoes(a, Outside);
    OnlyMinusGoes(b, Outside);
  }

  /** The text contains no negative zero. */
  ghost predicate NoSignedZero(t: seq<byte>) {
    forall k :: 0 <= k < |t| ==> !SignedZero(t[k..])
  }

  lemma {:induction false} PlainIsKept(t: seq<byte>, place: Place)
    requires NoSignedZero(t)
    ensures WithoutZeroSigns(t, place) == t
  {
    hide SignedZero;
    if t != [] {
      assert t[0..] == t;
      forall k | 0 <= k < |t[1..]| ensures !SignedZero(t[1..][k..]) {
        assert t[1..][k..] == t[k + 1..];
      }
      PlainIsKept(t[1..], Outside);
      PlainIsKept(t[1..], InString);
      PlainIsKept(t[1..], Escaped);
      assert t == [t[0]] + t[1..];
    }
  }

  /** Texts without a negative zero compare equal only when they are. */
  lemma PlainTextsCompareExactly(a: seq<byte>, b: seq<byte>)
    requires NoSignedZero(a) && NoSignedZero(b)
    ensures ArgsSame(a, b) <==> a == b
  {
    PlainIsKept(a, Outside);
    PlainIsKept(b, Outside);
    hide NoSignedZero;
  }

  /** Where a scan that starts at `place` is after a text. */
  function PlaceAfter(t: seq<byte>, place: Place): Place {
    if t == [] then place
    else
      PlaceAfter(t[1..], match place
                         case Outside => if t[0] == 34 then InString else Outside
                         case InString => if t[0] == 92 then Escaped else if t[0] == 34 then Outside else InString
                         case Escaped => InString)
  }

  /** The text is empty or ends in a comma, a colon or an opening bracket. */
  predicate BeforeValue(t: seq<byte>) {
    t == [] || t[|t| - 1] == 44 || t[|t| - 1] == 58 || t[|t| - 1] == 91
  }

  lemma SignedZeroWithin(t: seq<byte>, more: seq<byte>)
    requires t != [] && BeforeValue(t)
    ensures SignedZero(t + more) <==> SignedZero(t)
  {
    var all := t + more;
    if |t| >= 5 {
      assert all[..4] == t[..4] && all[4] == t[4];
    } else {
      var n := |t| - 1;
      assert all[n] == t[n];
      assert forall j :: 0 <= j < 4 ==> [45, 48, 46, 48][j] != t[n];
      assert |all| >= 4 ==> all[..4][n] == t[n];
      assert |t| >= 4 ==> t[..4][n] == t[n];
    }
  }

  lemma {:induction false} ScanConcat(t: seq<byte>, more: seq<byte>, place: Place)
    requires BeforeValue(t)
    ensures WithoutZeroSigns(t + more, place) == WithoutZeroSigns(t, place) + WithoutZeroSigns(more, PlaceAfter(t, place))
  {
    hide SignedZero;
    if t == [] {
      assert t + more == more;
    } else {
      SignedZeroWithin(t, more);
      assert (t + more)[1..] == t[1..] + more && (t + more)[0] == t[0];
      ScanConcat(t[1..], more, Outside);
      ScanConcat(t[1..], more, InString);
      ScanConcat(t[1..], more, Escaped);
      ConsConcat(t[0], WithoutZeroSigns(t[1..], Outside), WithoutZeroSigns(more, PlaceAfter(t[1..], Outside)));
      ConsConcat(t[0], WithoutZeroSigns(t[1..], InString), WithoutZeroSigns(more, PlaceAfter(t[1..], InString)));
      ConsConcat(t[0], WithoutZeroSigns(t[1..], Escaped), WithoutZeroSigns(more, PlaceAfter(t[1..], Escaped)));
      if SignedZero(t) && place == Outside {
        assert t[0] == 45 by { SignedZeroStarts(t); }
      }
    }
  }

  lemma ConsConcat<T>(x: T, a: seq<T>, b: seq<T>)
    ensures [x] + (a + b) == [x] + a + b
  {
  }

  lemma SignedZeroStarts(t: seq<byte>)
    requires SignedZero(t)
    ensures t[0] == 45
  {
    assert t[..4][0] == 45;
  }

  /** A sign put before a zero that stands where a JSON value may makes no difference. */
  lemma ZeroSignsCompareEqual(front: seq<byte>, rest: seq<byte>)
    requires BeforeValue(front) && PlaceAfter(front, Outside) == Outside
    requires rest == [] || !(48 <= rest[0] <= 57)
    ensures ArgsSame(front + ([45, 48, 46, 48] + rest), front + ([48, 46, 48] + rest))
  {
    ScanConcat(front, [45, 48, 46, 48] + rest, Outside);
    ScanConcat(front, [48, 46, 48] + rest, Outside);
    var signed := [45, 48, 46, 48] + rest;
    assert signed[..4] == [45, 48, 46, 48] && signed[1..] == [48, 46, 48] + rest;
    assert rest != [] ==> signed[4] == rest[0];
    hide BeforeValue, PlaceAfter;
  }
}
