/**
 * The operand-text rules of the archived calculator: how digit and decimal
 * point keys extend `currentValue` (leading-zero stripping, at most one
 * decimal point, the 12-character cap on digit keys).
 */
module Accumulator {
  import opened Wrappers
  import opened Text

  /** Longest operand a digit key may produce. */
  const MaxOperandLength: nat := 12

  /** Drops one leading "0" when it is followed by something other than ".". */
  function StripLeadingZero(v: string): (r: string)
    ensures r == v || ['0'] + r == v
    ensures Count(r, '.') == Count(v, '.')
    ensures |v| > 1 && v[0] == '0' && v[1] != '.' ==> |r| == |v| - 1
    ensures r != v <==> |v| > 1 && v[0] == '0' && v[1] != '.'
  {
    if |v| > 1 && v[0] == '0' && v[1] != '.' then v[1..] else v
  }

  /**
   * The operand after a digit key, or None when the key is dropped because
   * the operand would exceed the cap.
   */
  function AppendDigit(cv: string, num: string): (r: Option<string>)
    ensures r.Some? ==> |r.value| <= MaxOperandLength
    ensures r.Some? ==> r.value == cv + num || ['0'] + r.value == cv + num
    ensures |cv + num| <= MaxOperandLength ==> r.Some?
    ensures |cv + num| > MaxOperandLength + 1 ==> r.None?
    ensures r.Some? ==> (r.value == cv + num <==> NoLeadingZero(cv + num))
    ensures r.None? <==> |cv + num| - (if NoLeadingZero(cv + num) then 0 else 1) > MaxOperandLength
  {
    var v := StripLeadingZero(cv + num);
    if |v| > MaxOperandLength then None else Some(v)
  }

  /** The operand after a decimal-point key: "0." from empty, unchanged when a point is present. */
  function AppendDecimal(cv: string): (r: string)
    ensures '.' in r
    ensures '.' in cv ==> r == cv
    ensures cv == "" ==> r == "0."
    ensures cv != "" && '.' !in cv ==> r == cv + "."
    ensures Count(r, '.') == (if '.' in cv then Count(cv, '.') else 1)
  {
    if cv == "" then "0."
    else if '.' !in cv then
      CountAppend(cv, ".", '.');
      cv + "."
    else cv
  }

  /** A second decimal point never changes the operand. */
  lemma DecimalIdempotent(cv: string)
    ensures AppendDecimal(AppendDecimal(cv)) == AppendDecimal(cv)
  {
  }

  /** The keys that build an operand. */
  datatype Token = DigitKey(d: Digit) | PointKey

  /** One key applied to the operand; a dropped digit leaves it as it was. */
  function Feed(cv: string, t: Token): string {
    match t
    case DigitKey(d) => AppendDigit(cv, [d]).GetOr(cv)
    case PointKey => AppendDecimal(cv)
  }

  /** The operand after feeding a sequence of keys, in order, to `cv`. */
  function BuildFrom(cv: string, ts: seq<Token>): string
    decreases |ts|
  {
    if ts == [] then cv else BuildFrom(Feed(cv, ts[0]), ts[1..])
  }

  /** The operand built by a sequence of keys from the empty buffer. */
  function Build(ts: seq<Token>): string {
    BuildFrom("", ts)
  }

  /** No "0" directly followed by a digit at the front. */
  predicate NoLeadingZero(v: string) {
    !(|v| > 1 && v[0] == '0' && v[1] != '.')
  }

  /**
   * What a typed operand looks like: digits and at most one point, no
   * redundant leading zero, and at most 12 digits.
   */
  predicate WellFormedOperand(v: string) {
    && (forall i :: 0 <= i < |v| ==> IsDigit(v[i]) || v[i] == '.')
    && Count(v, '.') <= 1
    && NoLeadingZero(v)
    && |v| <= MaxOperandLength + Count(v, '.')
  }

  /** Every key keeps a well-formed operand well-formed. */
  lemma FeedKeepsWellFormed(cv: string, t: Token)
    requires WellFormedOperand(cv)
    ensures WellFormedOperand(Feed(cv, t))
  {
    match t
    case DigitKey(d) =>
      var v := cv + [d];
      CountAppend(cv, [d], '.');
      assert Count([d], '.') == 0;
      var r := AppendDigit(cv, [d]);
      if r.Some? {
        var w := r.value;
        if cv == "0" {
          assert w == [d];
        } else {
          if |cv| >= 2 && cv[0] == '0' {
            assert cv[1] == '.';
          }
          assert w == v;
          forall i | 0 <= i < |w|
            ensures IsDigit(w[i]) || w[i] == '.'
          {
            assert w[i] == (if i < |cv| then cv[i] else d);
          }
        }
      }
    case PointKey =>
      var w := AppendDecimal(cv);
      if cv != "" && '.' !in cv {
        assert w == cv + ".";
        forall i | 0 <= i < |w|
          ensures IsDigit(w[i]) || w[i] == '.'
        {
          assert w[i] == (if i < |cv| then cv[i] else '.');
        }
      } else if cv == "" {
        assert w == "0.";
        assert Count(w, '.') == 1;
      }
  }

  /** Any sequence of keys keeps a well-formed operand well-formed. */
  lemma {:induction false} BuildFromKeepsWellFormed(cv: string, ts: seq<Token>)
    requires WellFormedOperand(cv)
    ensures WellFormedOperand(BuildFrom(cv, ts))
    decreases |ts|
  {
    if ts != [] {
      FeedKeepsWellFormed(cv, ts[0]);
      BuildFromKeepsWellFormed(Feed(cv, ts[0]), ts[1..]);
    }
  }

  /**
   * Operands typed from an empty buffer are always well-formed: in particular
   * they never start with "0" followed by a digit and never hold two points.
   */
  lemma BuildWellFormed(ts: seq<Token>)
    ensures WellFormedOperand(Build(ts))
  {
    assert Count("", '.') == 0;
    BuildFromKeepsWellFormed("", ts);
  }

  /** Once an operand is non-empty no key empties it. */
  lemma {:induction false} BuildFromNonEmpty(cv: string, ts: seq<Token>)
    requires cv != "" || ts != []
    ensures BuildFrom(cv, ts) != ""
    decreases |ts|
  {
    if ts != [] {
      var next := Feed(cv, ts[0]);
      match ts[0] {
        case DigitKey(d) =>
          assert next != "";
        case PointKey =>
          assert '.' in next;
      }
      BuildFromNonEmpty(next, ts[1..]);
    }
  }

  /** Digits alone, at most twelve of them, are never dropped; each is appended unless it replaces a lone "0". */
  lemma DigitAccepted(cv: string, d: Digit)
    requires WellFormedOperand(cv) && |cv| < MaxOperandLength
    ensures AppendDigit(cv, [d]).Some?
    ensures cv == "0" ==> Feed(cv, DigitKey(d)) == [d]
    ensures cv != "0" ==> Feed(cv, DigitKey(d)) == cv + [d]
  {
    if cv != "0" && |cv| >= 2 && cv[0] == '0' {
      assert cv[1] == '.';
    }
  }

  /** Feeding "0", "0", "5" gives "5". */
  lemma LeadingZerosExample()
    ensures Build([DigitKey('0'), DigitKey('0'), DigitKey('5')]) == "5"
  {
    var ts := [DigitKey('0'), DigitKey('0'), DigitKey('5')];
    assert Feed("", ts[0]) == "0";
    assert Feed("0", ts[1]) == "0";
    assert Feed("0", ts[2]) == "5";
    assert ts[1..][1..][1..] == [];
  }

  /** Feeding "1", ".", "2", "." gives "1.2": the second point is ignored. */
  lemma DecimalDedupExample()
    ensures Build([DigitKey('1'), PointKey, DigitKey('2'), PointKey]) == "1.2"
  {
    var ts := [DigitKey('1'), PointKey, DigitKey('2'), PointKey];
    assert Feed("", ts[0]) == "1";
    assert Feed("1", ts[1]) == "1.";
    assert Feed("1.", ts[2]) == "1.2";
    assert Feed("1.2", ts[3]) == "1.2";
    assert ts[1..][1..][1..][1..] == [];
  }
}
