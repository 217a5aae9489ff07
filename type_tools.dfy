/**
 * hrmulator/TypeTools.py: the value-kind predicates the instructions use to
 * reject letters, and the conversion that only ever touches strings.
 */
module TypeTools {
  import opened Wrappers
  import opened PyBuiltins

  /** `is_char`: exactly the strings of length one. */
  predicate IsChar(v: PyValue)
  {
    v.PyStr? && |v.s| == 1
  }

  /** `is_int_or_char`: an exact int (a bool is not one) or a single character. */
  predicate IsIntOrChar(v: PyValue)
  {
    v.PyInt? || IsChar(v)
  }

  /** `int_if_possible`: a string that `int()` accepts becomes that int; anything else comes back as it was. */
  function IntIfPossible(v: PyValue): (r: PyValue)
    ensures r.PyInt? || r == v
    ensures !v.PyStr? ==> r == v
    ensures r != v ==> v.PyStr? && ParseInt(v.s) == Some(r.i)
    ensures v.PyStr? && ParseInt(v.s).Some? ==> r == PyInt(ParseInt(v.s).value)
  {
    if v.PyStr? && ParseInt(v.s).Some? then PyInt(ParseInt(v.s).value) else v
  }

  /** A value is a character exactly when it is the one-letter string of some char. */
  lemma IsCharIsOneLetterString(v: PyValue)
    ensures IsChar(v) <==> exists c: char :: v == PyStr([c])
  {
    if IsChar(v) {
      assert v == PyStr([v.s[0]]);
    }
  }

  /** Whatever `str()` writes for an int converts back to that int. */
  lemma IntIfPossibleOfShownInt(n: int)
    ensures IntIfPossible(PyStr(ShowInt(n))) == PyInt(n)
    ensures IsIntOrChar(IntIfPossible(PyStr(ShowInt(n))))
  {
    ParseShowInt(n);
  }

  /** Converting twice is converting once: an int result is kept, an unconvertible value comes back identical. */
  lemma IntIfPossibleIdempotent(v: PyValue)
    ensures IntIfPossible(IntIfPossible(v)) == IntIfPossible(v)
  {
  }

  /** The module's doctests and hrmulator/tests/test_TypeTools.py on the two predicates. */
  lemma PredicateExamples()
    ensures IsChar(PyStr("A")) && !IsChar(PyInt(42)) && !IsChar(PyStr("Hello, World!"))
    ensures IsIntOrChar(PyStr("A")) && IsIntOrChar(PyInt(43))
    ensures !IsIntOrChar(PyBool(true)) && !IsIntOrChar(PyStr("52"))
  {
  }

  /** The doctests and hrmulator/tests/test_TypeTools.py on `int_if_possible`. */
  lemma ConversionExamples()
    ensures IsIntOrChar(IntIfPossible(PyStr("52")))
    ensures IntIfPossible(PyStr("5")) == PyInt(5)
    ensures IntIfPossible(PyInt(5)) == PyInt(5)
    ensures IntIfPossible(PyBool(true)) == PyBool(true)
    ensures IntIfPossible(PyFloat(512, 1)) == PyFloat(512, 1)
  {
    assert ShowInt(52) == "52";
    IntIfPossibleOfShownInt(52);
    assert ShowInt(5) == "5";
    IntIfPossibleOfShownInt(5);
  }

  /** The doctests' strings that `int()` rejects come back unchanged. */
  lemma UnconvertibleExamples()
    ensures IntIfPossible(PyStr("5hello")) == PyStr("5hello")
    ensures IntIfPossible(PyStr("5h")) == PyStr("5h")
    ensures IntIfPossible(PyStr("51.2")) == PyStr("51.2")
  {
    var a, b, c := "5hello", "5h", "51.2";
    assert !IsDigit(a[1]) && !IsDigit(b[1]) && !IsDigit(c[2]);
    NoIntInside(a, 1);
    NoIntInside(b, 1);
    NoIntInside(c, 2);
  }

  /** A string holding a character that is neither a digit nor an underscore, past the first, is no int literal. */
  lemma NoIntInside(s: string, k: nat)
    requires 0 < k < |s|
    requires !IsSpace(s[0]) && !IsSpace(s[|s| - 1])
    requires !IsDigit(s[k]) && s[k] != '_'
    ensures ParseInt(s).None?
  {
    StripUnchanged(s);
    assert s[1..][k - 1] == s[k];
  }
}
