/**
 * hrmulator/Utilities.py: the older copy of the type helpers.  Its `is_char`
 * and `is_int_or_char` are the same expressions as TypeTools' (modelled there
 * by TypeTools.IsChar and TypeTools.IsIntOrChar); its `int_if_possible`
 * differs: it hands every value to `int()`, not only strings.
 */
module Utilities {
  import opened Wrappers
  import opened PyBuiltins
  import TypeTools

  /**
   * `int_if_possible`: `int(value)` when that succeeds, the value itself when
   * `int()` raises ValueError; a TypeError (from `int(None)`) is not caught.
   */
  function IntIfPossible(v: PyValue): (r: Result<PyValue, IntError>)
    ensures r.Err? <==> v.PyNone?
    ensures r.Err? ==> r.error == TypeError
    ensures IntOf(v) == Err(ValueError) ==> r == Ok(v)
    ensures IntOf(v).Ok? ==> r == Ok(PyInt(IntOf(v).value))
  {
    match IntOf(v)
    case Ok(i) => Ok(PyInt(i))
    case Err(ValueError) => Ok(v)
    case Err(TypeError) => Err(TypeError)
  }

  /** On strings and exact ints the two versions agree. */
  lemma AgreesWithTypeToolsOnStringsAndInts(v: PyValue)
    requires v.PyStr? || v.PyInt?
    ensures IntIfPossible(v) == Ok(TypeTools.IntIfPossible(v))
  {
  }

  /** Where they part: this version converts a bool and truncates a float toward zero. */
  lemma ConvertsNonStrings()
    ensures IntIfPossible(PyBool(true)) == Ok(PyInt(1))
    ensures TypeTools.IntIfPossible(PyBool(true)) == PyBool(true)
    ensures IntIfPossible(PyFloat(512, 1)) == Ok(PyInt(51))
    ensures IntIfPossible(PyFloat(-512, 1)) == Ok(PyInt(-51))
    ensures IntIfPossible(PyNone) == Err(TypeError)
  {
    assert Pow10(1) == 10;
    assert TruncDiv(512, 10) == 51;
    assert TruncDiv(-512, 10) == -51;
  }

  /** hrmulator/tests/test_Utilities.py: `is_char` of 'A', 42 and "Hello, World!". */
  lemma IsCharExamples()
    ensures TypeTools.IsChar(PyStr("A"))
    ensures !TypeTools.IsChar(PyInt(42))
    ensures !TypeTools.IsChar(PyStr("Hello, World!"))
    ensures TypeTools.IsIntOrChar(PyInt(-7)) && !TypeTools.IsIntOrChar(PyBool(false))
  {
  }
}
