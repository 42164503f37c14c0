/**
 * `repairAndParseJSON`, the same code in both variants of the repair engine: try
 * each strategy alone on the original text, then the growing prefixes of the
 * strategy list applied in order, and return the first candidate that parses.
 * `JSON.parse` is a parameter; a thrown `SyntaxError` is `None`.
 */
module RepairSearch {
  import opened Wrappers
  import opened JsValues

  /** A repair strategy: text in, text out. */
  type Strategy = string -> string

  /** `JSON.parse`: `None` where it throws. */
  type Parser = string -> Option<Value>

  /** `{success: true, data}` or `{success: false, error}`. */
  datatype RepairResult = Repaired(data: Value) | Unrepairable(error: string)
  {
    predicate Success() { this.Repaired? }
  }

  const FailureMessage: string := "Unable to repair JSON after trying all strategies"

  /** The strategies applied one after the other, the first one first. */
  function ApplyInOrder(s: string, strategies: seq<Strategy>): string
    decreases |strategies|
  {
    if strategies == [] then s else ApplyInOrder(strategies[0](s), strategies[1..])
  }

  lemma {:induction false} ApplyInOrderSnoc(s: string, strategies: seq<Strategy>, f: Strategy)
    ensures ApplyInOrder(s, strategies + [f]) == f(ApplyInOrder(s, strategies))
    decreases |strategies|
  {
    if strategies == [] {
      assert strategies + [f] == [f];
    } else {
      assert (strategies + [f])[1..] == strategies[1..] + [f];
      ApplyInOrderSnoc(strategies[0](s), strategies[1..], f);
    }
  }

  /** The texts handed to the parser, in order: each strategy alone, then each prefix of the list. */
  function Candidates(s: string, strategies: seq<Strategy>): (c: seq<string>)
    ensures |c| == 2 * |strategies|
  {
    seq(|strategies|, i requires 0 <= i < |strategies| => strategies[i](s))
      + seq(|strategies|, i requires 0 <= i < |strategies| => ApplyInOrder(s, strategies[..i + 1]))
  }

  /** Candidate `i` of the first loop is strategy `i` applied to the input. */
  lemma CandidateSingle(s: string, strategies: seq<Strategy>, i: nat)
    requires i < |strategies|
    ensures Candidates(s, strategies)[i] == strategies[i](s)
  {
  }

  /** Candidate `n + i` of the second loop is the prefix of `i + 1` strategies applied in order. */
  lemma CandidatePrefix(s: string, strategies: seq<Strategy>, i: nat)
    requires i < |strategies|
    ensures Candidates(s, strategies)[|strategies| + i] == ApplyInOrder(s, strategies[..i + 1])
  {
  }

  /** The first candidate at or after `k` that parses, with its value. */
  function FirstParsed(cands: seq<string>, parse: Parser, k: nat): (r: Option<(nat, Value)>)
    requires k <= |cands|
    ensures r.Some? ==> k <= r.value.0 < |cands| && parse(cands[r.value.0]) == Some(r.value.1)
    decreases |cands| - k
  {
    if k == |cands| then None
    else match parse(cands[k])
      case Some(v) => Some((k, v))
      case None => FirstParsed(cands, parse, k + 1)
  }

  /** No candidate between `k` and the one found parses; nothing is found iff no candidate from `k` on parses. */
  lemma {:induction false} FirstParsedIsFirst(cands: seq<string>, parse: Parser, k: nat)
    requires k <= |cands|
    ensures FirstParsed(cands, parse, k).Some? ==>
      forall j :: k <= j < FirstParsed(cands, parse, k).value.0 ==> parse(cands[j]).None?
    ensures FirstParsed(cands, parse, k).None? <==> forall j :: k <= j < |cands| ==> parse(cands[j]).None?
    decreases |cands| - k
  {
    if k < |cands| && parse(cands[k]).None? {
      FirstParsedIsFirst(cands, parse, k + 1);
    }
  }

  lemma FirstParsedStep(cands: seq<string>, parse: Parser, k: nat)
    requires k < |cands|
    ensures parse(cands[k]).None? ==> FirstParsed(cands, parse, k) == FirstParsed(cands, parse, k + 1)
    ensures parse(cands[k]).Some? ==> FirstParsed(cands, parse, k) == Some((k, parse(cands[k]).value))
  {
  }

  /** What `repairAndParseJSON` returns. */
  function Repair(s: string, strategies: seq<Strategy>, parse: Parser): RepairResult
  {
    match FirstParsed(Candidates(s, strategies), parse, 0)
    case Some((_, v)) => Repaired(v)
    case None => Unrepairable(FailureMessage)
  }

  /** How many times `repairAndParseJSON` calls the parser. */
  function Attempts(s: string, strategies: seq<Strategy>, parse: Parser): nat
  {
    match FirstParsed(Candidates(s, strategies), parse, 0)
    case Some((k, _)) => k + 1
    case None => 2 * |strategies|
  }

  /** The search stopped at candidate `k` with value `v`. */
  lemma StoppedAt(s: string, strategies: seq<Strategy>, parse: Parser, k: nat, v: Value)
    requires FirstFrom(s, strategies, parse, 0) == Some((k, v))
    ensures Repair(s, strategies, parse) == Repaired(v)
    ensures Attempts(s, strategies, parse) == k + 1 <= 2 * |strategies|
  {
  }

  /** The search went through every candidate. */
  lemma Exhausted(s: string, strategies: seq<Strategy>, parse: Parser)
    requires FirstFrom(s, strategies, parse, 0).None?
    ensures Repair(s, strategies, parse) == Unrepairable(FailureMessage)
    ensures Attempts(s, strategies, parse) == 2 * |strategies|
  {
  }

  /** The inner loop of the second phase: strategies `0..count-1` applied in order. */
  method ApplyPrefix(s: string, strategies: seq<Strategy>, count: nat) returns (repaired: string)
    requires count <= |strategies|
    ensures repaired == ApplyInOrder(s, strategies[..count])
  {
    repaired := s;
    var j := 0;
    while j < count
      invariant 0 <= j <= count
      invariant repaired == ApplyInOrder(s, strategies[..j])
    {
      ApplyInOrderSnoc(s, strategies[..j], strategies[j]);
      assert strategies[..j + 1] == strategies[..j] + [strategies[j]];
      repaired := strategies[j](repaired);
      j := j + 1;
    }
  }

  /** The two loops of `repairAndParseJSON`, with the number of parser calls made. */
  method RepairAndParse(s: string, strategies: seq<Strategy>, parse: Parser) returns (result: RepairResult, attempts: nat)
    ensures result == Repair(s, strategies, parse)
    ensures attempts == Attempts(s, strategies, parse) <= 2 * |strategies|
  {
    var found;
    found, attempts := TrySingles(s, strategies, parse);
    if found.Some? {
      return Repaired(found.value), attempts;
    }
    var more;
    found, more := TryPrefixes(s, strategies, parse);
    attempts := attempts + more;
    if found.Some? {
      result := Repaired(found.value);
    } else {
      result := Unrepairable(FailureMessage);
    }
  }

  /** The first loop: each strategy alone on the original text. */
  method TrySingles(s: string, strategies: seq<Strategy>, parse: Parser) returns (found: Option<Value>, attempts: nat)
    ensures found.Some? ==>
      Repair(s, strategies, parse) == Repaired(found.value) && attempts == Attempts(s, strategies, parse) <= 2 * |strategies|
    ensures found.None? ==>
      attempts == |strategies| && FirstFrom(s, strategies, parse, 0) == FirstFrom(s, strategies, parse, |strategies|)
  {
    attempts := 0;
    var i := 0;
    while i < |strategies|
      invariant 0 <= i <= |strategies| && attempts == i
      invariant FirstFrom(s, strategies, parse, 0) == FirstFrom(s, strategies, parse, i)
    {
      var parsed := parse(strategies[i](s));
      attempts := attempts + 1;
      CandidateSingle(s, strategies, i);
      CandidateStep(s, strategies, parse, i, strategies[i](s));
      if parsed.Some? {
        StoppedAt(s, strategies, parse, i, parsed.value);
        return parsed, attempts;
      }
      i := i + 1;
    }
    found := None;
  }

  /** The second loop: the growing prefixes of the strategy list, applied in order. */
  method TryPrefixes(s: string, strategies: seq<Strategy>, parse: Parser) returns (found: Option<Value>, attempts: nat)
    requires FirstFrom(s, strategies, parse, 0) == FirstFrom(s, strategies, parse, |strategies|)
    ensures found.Some? ==>
      Repair(s, strategies, parse) == Repaired(found.value) && |strategies| + attempts == Attempts(s, strategies, parse) <= 2 * |strategies|
    ensures found.None? ==>
      Repair(s, strategies, parse) == Unrepairable(FailureMessage) && |strategies| + attempts == Attempts(s, strategies, parse) == 2 * |strategies|
  {
    var n := |strategies|;
    attempts := 0;
    var i := 0;
    while i < n
      invariant 0 <= i <= n && attempts == i
      invariant FirstFrom(s, strategies, parse, 0) == FirstFrom(s, strategies, parse, n + i)
    {
      var repaired := ApplyPrefix(s, strategies, i + 1);
      var parsed := parse(repaired);
      attempts := attempts + 1;
      PrefixStep(s, strategies, parse, i, repaired);
      if parsed.Some? {
        StoppedAt(s, strategies, parse, n + i, parsed.value);
        return parsed, attempts;
      }
      i := i + 1;
    }
    Exhausted(s, strategies, parse);
    found := None;
  }

  /** A step of the second loop: candidate `n + i` is the prefix of `i + 1` strategies applied in order. */
  lemma PrefixStep(s: string, strategies: seq<Strategy>, parse: Parser, i: nat, text: string)
    requires i < |strategies| && text == ApplyInOrder(s, strategies[..i + 1])
    ensures parse(text).None? ==>
      FirstFrom(s, strategies, parse, |strategies| + i) == FirstFrom(s, strategies, parse, |strategies| + i + 1)
    ensures parse(text).Some? ==>
      FirstFrom(s, strategies, parse, |strategies| + i) == Some((|strategies| + i, parse(text).value))
  {
    CandidatePrefix(s, strategies, i);
    CandidateStep(s, strategies, parse, |strategies| + i, text);
  }

  /** The search over the candidates from position `k` on. */
  function FirstFrom(s: string, strategies: seq<Strategy>, parse: Parser, k: nat): Option<(nat, Value)>
    requires k <= 2 * |strategies|
  {
    FirstParsed(Candidates(s, strategies), parse, k)
  }

  /** One step of either loop: candidate `k` is `text`; it parses, or the search moves on. */
  lemma CandidateStep(s: string, strategies: seq<Strategy>, parse: Parser, k: nat, text: string)
    requires k < 2 * |strategies| && Candidates(s, strategies)[k] == text
    ensures parse(text).None? ==> FirstFrom(s, strategies, parse, k) == FirstFrom(s, strategies, parse, k + 1)
    ensures parse(text).Some? ==> FirstFrom(s, strategies, parse, k) == Some((k, parse(text).value))
  {
    FirstParsedStep(Candidates(s, strategies), parse, k);
  }

  /** Repair fails, with exactly the fixed message, iff no candidate parses. */
  lemma RepairFailsIffNothingParses(s: string, strategies: seq<Strategy>, parse: Parser)
    ensures !Repair(s, strategies, parse).Success() <==>
      forall k :: 0 <= k < 2 * |strategies| ==> parse(Candidates(s, strategies)[k]).None?
    ensures !Repair(s, strategies, parse).Success() ==> Repair(s, strategies, parse).error == FailureMessage
  {
    FirstParsedIsFirst(Candidates(s, strategies), parse, 0);
  }

  /** A success returns the value of the first candidate, in search order, that parses. */
  lemma RepairTakesFirstParse(s: string, strategies: seq<Strategy>, parse: Parser)
    requires Repair(s, strategies, parse).Success()
    ensures exists k ::
      (0 <= k < 2 * |strategies|
       && parse(Candidates(s, strategies)[k]) == Some(Repair(s, strategies, parse).data)
       && forall j :: 0 <= j < k ==> parse(Candidates(s, strategies)[j]).None?)
  {
    var r := FirstParsed(Candidates(s, strategies), parse, 0);
    FirstParsedIsFirst(Candidates(s, strategies), parse, 0);
    assert r.Some?;
  }

  /** The first prefix is the first strategy alone, so the first attempt of the second loop repeats the first attempt. */
  lemma FirstPrefixRepeatsFirstStrategy(s: string, strategies: seq<Strategy>, parse: Parser)
    requires |strategies| > 0
    ensures Candidates(s, strategies)[|strategies|] == Candidates(s, strategies)[0]
    ensures Repair(s, strategies, parse).Success() ==> Attempts(s, strategies, parse) != |strategies| + 1
  {
    var cands := Candidates(s, strategies);
    CandidateSingle(s, strategies, 0);
    CandidatePrefix(s, strategies, 0);
    FirstParsedIsFirst(cands, parse, 0);
    assert strategies[..1] == [strategies[0]];
    assert ApplyInOrder(s, [strategies[0]]) == ApplyInOrder(strategies[0](s), []);
    match FirstParsed(cands, parse, 0)
    case Some((k, _)) =>
      if k == |strategies| {
        assert false;
      }
    case None =>
  }
}
