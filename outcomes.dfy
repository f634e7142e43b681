/**
 * What happens when one of the six helpers of tools/functions.py is called:
 * the three checking libraries, the exception classes they raise, the
 * arguments the runners pass, and the outcome of a plain or a decorated
 * call. Arguments are typed values here, so the libraries' type checks
 * always pass; what remains are their value checks (a non-empty alias
 * list, a positive `max_len`) and the errors Python itself raises.
 */
module Outcomes {
  import opened Wrappers
  import opened Dataset
  import Functions

  datatype Library = Beartype | Typeguard | Icontract

  /** The six helpers, in the order both runners list them. */
  datatype Func = IsCorrect | AnswerInContext | ShortestAlias | ValidateConsistency | ScoreCandidate | NormalizeQuestion

  const Funcs: seq<Func> := [IsCorrect, AnswerInContext, ShortestAlias, ValidateConsistency, ScoreCandidate, NormalizeQuestion]

  /** `f.__name__` of each plain helper. */
  function FuncName(f: Func): string {
    match f
    case IsCorrect => "is_correct"
    case AnswerInContext => "answer_in_context"
    case ShortestAlias => "shortest_alias"
    case ValidateConsistency => "validate_consistency"
    case ScoreCandidate => "score_candidate"
    case NormalizeQuestion => "normalize_question"
  }

  /** The helper a name denotes, if any. */
  function FuncNamed(name: string): (r: Option<Func>)
    ensures r.Some? ==> FuncName(r.value) == name
  {
    if name == "is_correct" then Some(IsCorrect)
    else if name == "answer_in_context" then Some(AnswerInContext)
    else if name == "shortest_alias" then Some(ShortestAlias)
    else if name == "validate_consistency" then Some(ValidateConsistency)
    else if name == "score_candidate" then Some(ScoreCandidate)
    else if name == "normalize_question" then Some(NormalizeQuestion)
    else None
  }

  /** Every helper is found under its own name, so the six names are pairwise different. */
  lemma FuncNamedRoundTrip(f: Func)
    ensures FuncNamed(FuncName(f)) == Some(f)
  {
    match f
    case IsCorrect =>
    case AnswerInContext =>
      assert FuncName(f)[0] != 'i';
    case ShortestAlias =>
      assert FuncName(f)[0] != 'i' && FuncName(f)[0] != 'a';
    case ValidateConsistency =>
      assert FuncName(f)[0] == 'v';
    case ScoreCandidate =>
      assert FuncName(f)[1] == 'c';
    case NormalizeQuestion =>
      assert FuncName(f)[0] == 'n';
  }

  /** `Funcs` lists every helper exactly once. */
  lemma FunctionsListsEachOnce(f: Func)
    ensures f in Funcs
    ensures forall i, j :: 0 <= i < j < |Funcs| ==> Funcs[i] != Funcs[j]
  {
  }

  /** The number of parameters of each helper (tools/functions.py:9-25). */
  function Arity(f: Func): nat {
    match f
    case IsCorrect => 2
    case AnswerInContext => 2
    case ShortestAlias => 1
    case ValidateConsistency => 1
    case ScoreCandidate => 2
    case NormalizeQuestion => 2
  }

  /** An argument value: a string, a list of strings, a whole item, or an integer. */
  datatype Arg = StrArg(s: string) | ListArg(xs: seq<string>) | ItemArg(item: Item) | IntArg(n: int)

  /** The arguments have the kinds the helper's annotations declare. */
  predicate WellKinded(f: Func, args: seq<Arg>) {
    |args| == Arity(f) &&
    match f
    case IsCorrect => args[0].StrArg? && args[1].ItemArg?
    case AnswerInContext => args[0].StrArg? && args[1].StrArg?
    case ShortestAlias => args[0].ListArg?
    case ValidateConsistency => args[0].ItemArg?
    case ScoreCandidate => args[0].StrArg? && args[1].ItemArg?
    case NormalizeQuestion => args[0].StrArg? && args[1].IntArg?
  }

  /**
   * The exception classes the runners tell apart: the library violations,
   * and any other exception by its class name.
   */
  datatype ExceptionClass =
    | TypeCheckError
    | BeartypeCallHintParamViolation
    | BeartypeCallHintReturnViolation
    | ViolationError
    | OtherException(name: string)

  /** `type(e).__name__`. */
  function ClassName(e: ExceptionClass): string {
    match e
    case TypeCheckError => "TypeCheckError"
    case BeartypeCallHintParamViolation => "BeartypeCallHintParamViolation"
    case BeartypeCallHintReturnViolation => "BeartypeCallHintReturnViolation"
    case ViolationError => "ViolationError"
    case OtherException(name) => name
  }

  /** The exceptions each library raises on a violated check. */
  predicate RaisedBy(lib: Library, e: ExceptionClass) {
    match lib
    case Beartype => e == BeartypeCallHintParamViolation || e == BeartypeCallHintReturnViolation
    case Typeguard => e == TypeCheckError
    case Icontract => e == ViolationError
  }

  /** Every library exception belongs to exactly one library, and no other exception to any. */
  lemma RaisedByExactlyOne(e: ExceptionClass, lib: Library, lib': Library)
    ensures RaisedBy(lib, e) && RaisedBy(lib', e) ==> lib == lib'
    ensures e.OtherException? ==> !RaisedBy(lib, e)
    ensures !e.OtherException? ==> exists l :: RaisedBy(l, e)
  {
    match e
    case TypeCheckError => assert RaisedBy(Typeguard, e);
    case ViolationError => assert RaisedBy(Icontract, e);
    case BeartypeCallHintParamViolation => assert RaisedBy(Beartype, e);
    case BeartypeCallHintReturnViolation => assert RaisedBy(Beartype, e);
    case OtherException(_) =>
  }

  /** The class names of the library exceptions are pairwise different and none is "None" or "Exception". */
  lemma LibraryClassNames(e: ExceptionClass, e': ExceptionClass)
    requires !e.OtherException? && !e'.OtherException?
    ensures ClassName(e) == ClassName(e') <==> e == e'
    ensures ClassName(e) != "None" && ClassName(e) != "Exception"
  {
    var n, n' := ClassName(e), ClassName(e');
    assert n[0] != 'N' && n[0] != 'E';
    if e != e' {
      if n[0] == n'[0] {
        assert n[..14] == "BeartypeCallHi" && n'[..14] == "BeartypeCallHi";
        assert n[16] != n'[16];
      }
    }
  }

  /** How a call ends: it returns, or it raises. */
  datatype Outcome = Returned | Raised(exc: ExceptionClass)

  /**
   * A call of the plain helper: Python raises TypeError for a wrong number
   * of arguments, and `min` raises ValueError on an empty alias list; every
   * other call returns.
   */
  function PlainCall(f: Func, args: seq<Arg>): (o: Outcome)
    requires |args| == Arity(f) ==> WellKinded(f, args)
    ensures o.Raised? ==> o.exc.OtherException?
    ensures |args| != Arity(f) ==> o == Raised(OtherException("TypeError"))
  {
    if |args| != Arity(f) then Raised(OtherException("TypeError"))
    else if f == ShortestAlias && Functions.ShortestAlias(args[0].xs).Err? then Raised(OtherException("ValueError"))
    else Returned
  }

  /** With the right arguments, a plain call raises exactly when the helper has no value: `shortest_alias([])`. */
  lemma PlainCallRaisesIff(f: Func, args: seq<Arg>)
    requires WellKinded(f, args)
    ensures PlainCall(f, args).Raised? <==> f == ShortestAlias && args[0].xs == []
  {
  }

  /**
   * A call of the decorated helper of library `lib` (tools/functions.py:28-112),
   * as this model reads the three libraries: a wrong number of arguments
   * fails as in Python; then beartype checks `NonEmptyStrList` and
   * `PositiveInt`, icontract checks `len(xs) > 0` and `m > 0`, typeguard
   * checks only types; then the plain helper runs. Every icontract wrapper
   * also carries a postcondition `lambda r: ...`, and `r` is neither a
   * parameter nor `result`, so once the helper has returned icontract
   * cannot bind the condition's argument and raises TypeError.
   */
  function DecoratedCall(lib: Library, f: Func, args: seq<Arg>): (o: Outcome)
    requires |args| == Arity(f) ==> WellKinded(f, args)
    ensures o.Raised? && !o.exc.OtherException? ==> RaisedBy(lib, o.exc)
  {
    if |args| != Arity(f) then Raised(OtherException("TypeError"))
    else if ValueCheckFails(lib, f, args) then
      Raised(if lib == Beartype then BeartypeCallHintParamViolation else ViolationError)
    else if lib == Icontract && PlainCall(f, args).Returned? then Raised(UnboundConditionArgument)
    else PlainCall(f, args)
  }

  /** What icontract raises when a condition names an argument the call does not supply. */
  const UnboundConditionArgument: ExceptionClass := OtherException("TypeError")

  /** The value check of the decorator of `lib` rejects the arguments. */
  predicate ValueCheckFails(lib: Library, f: Func, args: seq<Arg>)
    requires WellKinded(f, args)
  {
    lib != Typeguard &&
    ((f == ShortestAlias && args[0].xs == []) || (f == NormalizeQuestion && args[1].n <= 0))
  }

  /**
   * Under beartype and typeguard the decorated call differs from the plain
   * one only where a value check fires, and under typeguard never; under
   * icontract no call returns, since the postcondition fails even when the
   * preconditions hold.
   */
  lemma DecoratedAgreesWithPlain(lib: Library, f: Func, args: seq<Arg>)
    requires |args| == Arity(f) ==> WellKinded(f, args)
    ensures lib != Icontract ==>
      (DecoratedCall(lib, f, args) != PlainCall(f, args) <==> |args| == Arity(f) && ValueCheckFails(lib, f, args))
    ensures lib == Typeguard ==> DecoratedCall(lib, f, args) == PlainCall(f, args)
    ensures lib == Icontract ==> DecoratedCall(lib, f, args).Raised?
    ensures lib == Icontract && |args| == Arity(f) && !ValueCheckFails(lib, f, args) ==>
      DecoratedCall(lib, f, args) == Raised(OtherException("TypeError"))
  {
    if lib == Icontract && |args| == Arity(f) && !ValueCheckFails(lib, f, args) {
      PlainCallRaisesIff(f, args);
    }
  }

  /**
   * On an empty alias list `shortest_alias` fails under every library, with
   * the library's own violation under beartype and icontract and with the
   * ValueError of `min` under typeguard.
   */
  lemma ShortestAliasOfNothing(lib: Library)
    ensures DecoratedCall(lib, ShortestAlias, [ListArg([])]) ==
      match lib
      case Beartype => Raised(BeartypeCallHintParamViolation)
      case Icontract => Raised(ViolationError)
      case Typeguard => Raised(OtherException("ValueError"))
  {
  }

  /** A non-positive `max_len` is refused by beartype and icontract; typeguard lets the slice run. */
  lemma NormalizeNonPositive(lib: Library, q: string, m: int)
    requires m <= 0
    ensures DecoratedCall(lib, NormalizeQuestion, [StrArg(q), IntArg(m)]) ==
      match lib
      case Beartype => Raised(BeartypeCallHintParamViolation)
      case Icontract => Raised(ViolationError)
      case Typeguard => Returned
  {
  }
}
