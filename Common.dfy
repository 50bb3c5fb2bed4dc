/** Small shared vocabulary: optional values, outcomes that may fail, and the
    string and sequence predicates the client code relies on
    (`Array.prototype.includes`, `String.prototype.includes`). */
module Common {

  datatype Option<+T> = None | Some(value: T)

  datatype Result<+T, +E> = Ok(value: T) | Err(error: E)

  /** No element occurs twice. */
  predicate NoDuplicates<T(==)>(s: seq<T>)
  {
    forall i, j :: 0 <= i < j < |s| ==> s[i] != s[j]
  }

  /** Regrouping a concatenation. */
  lemma AppendAssoc<T>(a: seq<T>, b: seq<T>, c: seq<T>)
    ensures (a + b) + c == a + (b + c)
  {
  }

  /** How often `x` occurs in `s`. */
  function Count<T(==)>(s: seq<T>, x: T): (n: nat)
    ensures n <= |s|
    ensures n == 0 <==> x !in s
  {
    if s == [] then 0 else (if s[0] == x then 1 else 0) + Count(s[1..], x)
  }

  lemma {:induction false} CountOneIfUnique<T>(s: seq<T>, x: T)
    requires NoDuplicates(s) && x in s
    ensures Count(s, x) == 1
  {
    if s[0] == x {
      assert x !in s[1..] by {
        forall k | 0 <= k < |s| - 1 ensures s[1..][k] != x {
          assert s[k + 1] != s[0];
        }
      }
    } else {
      CountOneIfUnique(s[1..], x);
    }
  }

  /** `w` occurs in `s` at position `i`. */
  predicate OccursAt(s: string, w: string, i: int)
  {
    0 <= i && i + |w| <= |s| && s[i..i + |w|] == w
  }

  /** `s.includes(w)`: some window of `s` spells `w`. */
  function Contains(s: string, w: string): (b: bool)
    ensures b <==> exists i :: OccursAt(s, w, i)
  {
    if |s| < |w| then
      false
    else if s[..|w|] == w then
      assert OccursAt(s, w, 0);
      true
    else
      var rest := Contains(s[1..], w);
      assert forall i :: OccursAt(s[1..], w, i) ==> OccursAt(s, w, i + 1) by {
        forall i | OccursAt(s[1..], w, i) ensures OccursAt(s, w, i + 1) {
          assert s[1..][i..i + |w|] == s[i + 1..i + 1 + |w|];
        }
      }
      assert forall i :: OccursAt(s, w, i) && i > 0 ==> OccursAt(s[1..], w, i - 1) by {
        forall i | OccursAt(s, w, i) && i > 0 ensures OccursAt(s[1..], w, i - 1) {
          assert s[1..][i - 1..i - 1 + |w|] == s[i..i + |w|];
        }
      }
      rest
  }

  /** When `w` has no blank and `p` ends in a blank, no window of `p + t`
      that spells `w` can straddle the seam: `w` is found in `p + t` exactly
      when it is found in `p` or in `t`. */
  lemma ContainsAfterBlank(p: string, t: string, w: string)
    requires |p| > 0 && p[|p| - 1] == ' ' && ' ' !in w
    ensures Contains(p + t, w) <==> Contains(p, w) || Contains(t, w)
  {
    var s := p + t;
    if Contains(s, w) {
      var i :| OccursAt(s, w, i);
      if i + |w| <= |p| {
        assert s[i..i + |w|] == p[i..i + |w|];
        assert OccursAt(p, w, i);
      } else if i >= |p| {
        assert s[i..i + |w|] == t[i - |p|..i - |p| + |w|];
        assert OccursAt(t, w, i - |p|);
      } else {
        StraddleHoldsSeam(p, t, w, i);
        assert false;
      }
    }
    if Contains(p, w) {
      var i :| OccursAt(p, w, i);
      assert s[i..i + |w|] == p[i..i + |w|];
      assert OccursAt(s, w, i);
    }
    if Contains(t, w) {
      var i :| OccursAt(t, w, i);
      assert s[|p| + i..|p| + i + |w|] == t[i..i + |w|];
      assert OccursAt(s, w, |p| + i);
    }
  }

  /** A window of `p + t` that straddles the seam holds the last letter of `p`. */
  lemma StraddleHoldsSeam(p: string, t: string, w: string, i: int)
    requires OccursAt(p + t, w, i) && i < |p| < i + |w|
    ensures p[|p| - 1] in w
  {
    var window := (p + t)[i..i + |w|];
    assert window[|p| - 1 - i] == p[|p| - 1];
  }

  /** A text that contains `w` contains the first letter of `w`. */
  lemma FirstLetterOfFound(s: string, w: string)
    requires |w| > 0
    ensures Contains(s, w) ==> w[0] in s
  {
    if Contains(s, w) {
      var i :| OccursAt(s, w, i);
      assert s[i..i + |w|][0] == s[i];
    }
  }

  /** Behind a prefix that ends in a blank and lacks the first letter of a
      blank-free `w`, `w` is found exactly when it is found after the prefix. */
  lemma ContainsBehindPrefix(p: string, t: string, w: string)
    requires |p| > 0 && p[|p| - 1] == ' ' && |w| > 0 && ' ' !in w && w[0] !in p
    ensures Contains(p + t, w) <==> Contains(t, w)
  {
    ContainsAfterBlank(p, t, w);
    FirstLetterOfFound(p, w);
  }

  /** The decimal digit for `d`. */
  function DigitChar(d: nat): char
    requires d < 10
  {
    ('0' as int + d) as char
  }

  /** How a non-negative integer prints: decimal digits, no sign. */
  function Decimal(n: nat): (s: string)
    ensures |s| > 0
    decreases n
  {
    if n < 10 then [DigitChar(n)] else Decimal(n / 10) + [DigitChar(n % 10)]
  }

  /** Reads a run of decimal digits back as a number. */
  function ParseDecimal(s: string): (r: Option<nat>)
  {
    if s == [] || !('0' <= s[|s| - 1] <= '9') then None
    else if |s| == 1 then Some(s[0] as int - '0' as int)
    else
      match ParseDecimal(s[..|s| - 1])
      case None => None
      case Some(high) => Some(high * 10 + (s[|s| - 1] as int - '0' as int))
  }

  lemma {:induction false} DecimalReadBack(n: nat)
    ensures ParseDecimal(Decimal(n)) == Some(n)
    decreases n
  {
    if n >= 10 {
      DecimalReadBack(n / 10);
      var s := Decimal(n);
      assert s[..|s| - 1] == Decimal(n / 10);
    }
  }

  /** One field of a url-encoded form. */
  datatype FormField = FormField(name: string, value: string)

  function FieldNames(form: seq<FormField>): (names: seq<string>)
    ensures |names| == |form|
    ensures forall i :: 0 <= i < |form| ==> names[i] == form[i].name
  {
    if form == [] then [] else [form[0].name] + FieldNames(form[1..])
  }

  /** The value a form decoder takes for `name`: that of its first field. */
  function FormValue(form: seq<FormField>, name: string): (r: Option<string>)
    ensures r.Some? <==> name in FieldNames(form)
  {
    if form == [] then None
    else if form[0].name == name then Some(form[0].value)
    else FormValue(form[1..], name)
  }
}
