/** Small shared vocabulary: optional values and the text order used by sort keys. */
module Common {

  datatype Option<+T> = None | Some(value: T)

  type Id = string

  /** Blank in the sense of `str.strip()`: nothing but ASCII white space. */
  predicate Blank(s: string) {
    forall i :: 0 <= i < |s| ==> s[i] in {' ', '\t', '\n', '\r'} || s[i] as int in {11, 12, 28, 29, 30, 31}
  }

  /** Blank in the sense of the schema's `length(trim(x)) > 0` checks: only spaces are trimmed. */
  predicate SqlBlank(s: string) {
    forall i :: 0 <= i < |s| ==> s[i] == ' '
  }

  /** Strict lexicographic order on text, by code point. */
  predicate TextBefore(a: string, b: string) {
    if |b| == 0 then false
    else if |a| == 0 then true
    else if a[0] != b[0] then a[0] < b[0]
    else TextBefore(a[1..], b[1..])
  }

  /** `a` and `b` first differ at position `k`, where `a` ends or has the smaller character. */
  predicate SmallerAt(a: string, b: string, k: nat) {
    k <= |a| && k < |b| && a[..k] == b[..k] && (k == |a| || a[k] < b[k])
  }

  lemma {:induction false} TextBeforeMeans(a: string, b: string)
    ensures TextBefore(a, b) <==> exists k: nat :: SmallerAt(a, b, k)
  {
    if |a| > 0 && |b| > 0 && a[0] == b[0] {
      TextBeforeMeans(a[1..], b[1..]);
      if k: nat :| SmallerAt(a[1..], b[1..], k) {
        assert a[..k + 1] == [a[0]] + a[1..][..k] && b[..k + 1] == [b[0]] + b[1..][..k];
        assert SmallerAt(a, b, k + 1);
      }
      if k: nat :| SmallerAt(a, b, k) {
        assert k > 0;
        assert a[1..][..k - 1] == a[..k][1..] && b[1..][..k - 1] == b[..k][1..];
        assert SmallerAt(a[1..], b[1..], k - 1);
      }
    } else if |a| > 0 && |b| > 0 {
      assert a[0] < b[0] ==> SmallerAt(a, b, 0);
    } else if |b| > 0 {
      assert SmallerAt(a, b, 0);
    }
  }

  lemma {:induction false} TextBeforeIsTotal(a: string, b: string)
    ensures a == b || TextBefore(a, b) || TextBefore(b, a)
    ensures !(TextBefore(a, b) && TextBefore(b, a))
    ensures a == b ==> !TextBefore(a, b)
  {
    if |a| > 0 && |b| > 0 && a[0] == b[0] {
      TextBeforeIsTotal(a[1..], b[1..]);
      assert a == [a[0]] + a[1..] && b == [b[0]] + b[1..];
    }
  }

  lemma {:induction false} TextBeforeIsTransitive(a: string, b: string, c: string)
    requires TextBefore(a, b) && TextBefore(b, c)
    ensures TextBefore(a, c)
  {
    if |a| > 0 && a[0] == b[0] && b[0] == c[0] {
      TextBeforeIsTransitive(a[1..], b[1..], c[1..]);
    }
  }
}
