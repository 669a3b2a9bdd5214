/**
 * The keyword search of the discovery screen: the blank-keyword guard
 * (`keyword.trim()`), the phrase sent to the Places service, and how the
 * service's status decides the listed shops.
 */
module Keyword {
  import opened Wrappers
  import opened Places

  /**
   * The characters JavaScript's `String.prototype.trim` removes: the
   * WhiteSpace and LineTerminator code points of ECMA-262. Within ASCII
   * they are the six control and space characters; the ideographic space
   * of Korean input methods is among them.
   */
  predicate IsWhiteSpace(c: char): (b: bool)
    ensures c < '\U{0080}' ==> (b <==> c in "\t\n\U{000B}\U{000C}\r ")
    ensures c == '\U{3000}' ==> b
  {
    || c == '\t' || c == '\n' || c == '\U{000B}' || c == '\U{000C}' || c == '\r'
    || c == ' ' || c == '\U{00A0}' || c == '\U{1680}'
    || ('\U{2000}' <= c <= '\U{200A}')
    || c == '\U{2028}' || c == '\U{2029}' || c == '\U{202F}' || c == '\U{205F}'
    || c == '\U{3000}' || c == '\U{FEFF}'
  }

  /** The text without its leading white space. */
  function TrimStart(s: string): (r: string)
    ensures |r| <= |s| && r == s[|s| - |r|..]
    ensures forall i :: 0 <= i < |s| - |r| ==> IsWhiteSpace(s[i])
    ensures r != [] ==> !IsWhiteSpace(r[0])
    decreases |s|
  {
    if s != [] && IsWhiteSpace(s[0]) then TrimStart(s[1..]) else s
  }

  /** The text without its trailing white space. */
  function TrimEnd(s: string): (r: string)
    ensures |r| <= |s| && r == s[..|r|]
    ensures forall i :: |r| <= i < |s| ==> IsWhiteSpace(s[i])
    ensures r != [] ==> !IsWhiteSpace(r[|r| - 1])
    decreases |s|
  {
    if s != [] && IsWhiteSpace(s[|s| - 1]) then TrimEnd(s[..|s| - 1]) else s
  }

  /** `s.trim()`: white space cut from both ends, so that neither end of the result is white space. */
  function Trim(s: string): (r: string)
    ensures |r| <= |s|
    ensures r != [] ==> !IsWhiteSpace(r[0]) && !IsWhiteSpace(r[|r| - 1])
  {
    TrimEnd(TrimStart(s))
  }

  /** The guard `!keyword.trim()`: the trimmed keyword is empty exactly when every character is white space. */
  lemma BlankIffAllWhiteSpace(keyword: string)
    ensures Trim(keyword) == "" <==> forall i :: 0 <= i < |keyword| ==> IsWhiteSpace(keyword[i])
  {
  }

  /** The phrase of a keyword search: the keyword as typed (not trimmed), then " 수리". */
  function KeywordPhrase(keyword: string): (p: string)
    ensures |p| == |keyword| + 3
    ensures p[..|keyword|] == keyword && p[|keyword|..] == " 수리"
  {
    keyword + " 수리"
  }

  /** The rejection raised for a status other than `OK` and `ZERO_RESULT`. */
  datatype SearchError = SearchFailed

  /** How the keyword search's promise settles: `OK` with the places, `ZERO_RESULT` with none, anything else rejected. */
  function Resolve(outcome: SearchOutcome): (r: Result<seq<RawPlace>, SearchError>)
    ensures r.Failure? <==> outcome.Failed?
    ensures outcome.Ok? ==> r == Success(outcome.places)
    ensures outcome.ZeroResult? ==> r == Success([])
  {
    match outcome
    case Ok(places) => Success(places)
    case ZeroResult => Success([])
    case Failed => Failure(SearchFailed)
  }

  /**
   * The list the keyword search stores: the found places as records, in the
   * service's order and without deduplication, or the empty list when the
   * promise resolved with none or was rejected.
   */
  function KeywordShops(outcome: SearchOutcome): (shops: seq<Shop>)
    ensures outcome.Ok? ==> shops == ToShops(outcome.places)
    ensures !outcome.Ok? ==> shops == []
  {
    match Resolve(outcome)
    case Success(places) => ToShops(places)
    case Failure(_) => []
  }

  /** A zero result is told apart from a failure when the promise settles, but both list no shops. */
  lemma ZeroResultIsNotFailure()
    ensures Resolve(ZeroResult) == Success([]) && Resolve(Failed).Failure?
    ensures KeywordShops(ZeroResult) == KeywordShops(Failed) == []
  {
  }
}
