/**
 * Reading line-delimited JSON into records, and the store that holds the
 * records together with the `loading`, `error` and `isDataLoaded` flags.
 * Parsing one line as JSON is a parameter `parse`: `None` when the line is
 * not valid JSON.
 */
module Ingestion {
  import opened Wrappers
  import opened Text
  import opened Folds
  import opened MetricTypes

  /**
   * A line survives `filter((line) => line.trim())`: it is not made of
   * whitespace alone (`TrimmedLineIsKept` says this is the source's test).
   */
  predicate HasContent(line: string)
  {
    !AllSpace(line)
  }

  lemma TrimmedLineIsKept(line: string)
    ensures HasContent(line) <==> Trim(line) != []
  {
    TrimEmptyIffAllSpace(line);
  }

  /**
   * `text.trim().split('\n').filter((line) => line.trim())`: the lines kept
   * are lines of the trimmed text that are not blank, and every such line
   * is kept.
   */
  function NonBlankLines(text: string): (lines: seq<string>)
    ensures forall i :: 0 <= i < |lines| ==> HasContent(lines[i]) && lines[i] in Split(Trim(text))
    ensures forall i :: 0 <= i < |Split(Trim(text))| && HasContent(Split(Trim(text))[i]) ==>
      Split(Trim(text))[i] in lines
  {
    var pieces := Split(Trim(text));
    forall i | 0 <= i < |pieces| && HasContent(pieces[i])
      ensures pieces[i] in Group(pieces, HasContent, true)
    {
      GroupMember(pieces, HasContent, i);
    }
    Group(pieces, HasContent, true)
  }

  /**
   * The kept lines are a filter: in their order in the text, each
   * non-blank line once per occurrence, every blank line dropped.
   */
  lemma NonBlankLinesIsFilter(text: string, xs: seq<string>, ys: seq<string>, line: string)
    ensures NonBlankLines(text) == Group(Split(Trim(text)), HasContent, true)
    ensures Group(xs + ys, HasContent, true) == Group(xs, HasContent, true) + Group(ys, HasContent, true)
    ensures Group([line], HasContent, true) == if HasContent(line) then [line] else []
  {
    GroupAppend(xs, ys, HasContent, true);
    GroupSingleton(line, HasContent, true);
  }

  /** The only text without a usable line is text made of whitespace alone. */
  lemma NoLinesIffBlankText(text: string)
    ensures NonBlankLines(text) == [] <==> AllSpace(text)
  {
    var pieces := Split(Trim(text));
    TrimEmptyIffAllSpace(text);
    if AllSpace(text) {
      assert pieces == [""];
      GroupSingleton("", HasContent, true);
    } else {
      assert !IsJsSpace(Trim(text)[0]);
      var i := SomePieceHasContent(Trim(text), 0);
      GroupEmpty(pieces, HasContent, true);
    }
  }

  /** A character that is not whitespace survives into some line of the split. */
  lemma SomePieceHasContent(s: string, k: nat) returns (i: nat)
    requires k < |s| && !IsJsSpace(s[k])
    ensures i < |Split(s)| && !AllSpace(Split(s)[i])
  {
    var pieces := Split(s);
    JoinSplit(s);
    assert s[k] != '\n';
    JoinMember(pieces, k);
    i :| 0 <= i < |pieces| && s[k] in pieces[i];
    var j :| 0 <= j < |pieces[i]| && pieces[i][j] == s[k];
  }

  /**
   * `lines.map(JSON.parse)` where the first line that does not parse throws:
   * either every line parsed, in order, or the 1-based number of the first
   * line that did not.
   */
  function ParseAll(lines: seq<string>, parse: string -> Option<CopilotMetric>): (r: Result<seq<CopilotMetric>, nat>)
    ensures r.Success? ==>
      |r.value| == |lines| && forall i :: 0 <= i < |lines| ==> parse(lines[i]) == Some(r.value[i])
    ensures r.Failure? ==>
      && 1 <= r.error <= |lines|
      && parse(lines[r.error - 1]).None?
      && forall i :: 0 <= i < r.error - 1 ==> parse(lines[i]).Some?
  {
    if lines == [] then Success([])
    else
      var init := lines[..|lines| - 1];
      assert forall i :: 0 <= i < |init| ==> init[i] == lines[i];
      match ParseAll(init, parse)
      case Failure(k) => Failure(k)
      case Success(parsed) =>
        match parse(lines[|lines| - 1])
        case None => Failure(|lines|)
        case Some(m) => Success(parsed + [m])
  }

  datatype LoadError = EmptyFile | LineParseError(line: nat)

  /**
   * The text stored in `error` for each way a load can fail: a fixed text
   * for an empty file, and for a line that does not parse a fixed prefix
   * followed by the line's number in decimal digits.
   */
  function ErrorMessage(e: LoadError): (message: string)
    ensures e.EmptyFile? ==> message == "Le fichier est vide"
    ensures e.LineParseError? ==>
      && |message| > |LineErrorPrefix|
      && message[..|LineErrorPrefix|] == LineErrorPrefix
      && (forall k :: |LineErrorPrefix| <= k < |message| ==> '0' <= message[k] <= '9')
      && DecimalValue(message[|LineErrorPrefix|..]) == e.line
    ensures e.LineParseError? && e.line >= 1 ==> message[|LineErrorPrefix|] != '0'
  {
    match e
    case EmptyFile => "Le fichier est vide"
    case LineParseError(n) =>
      var message := LineErrorPrefix + NatToString(n);
      assert message[|LineErrorPrefix|..] == NatToString(n);
      DecimalRoundTrip(n);
      message
  }

  const LineErrorPrefix := "Erreur de parsing \U{E0} la ligne "

  /** The message of a line error names the line: different lines, different messages. */
  lemma LineErrorMessagesDiffer(m: nat, n: nat)
    requires ErrorMessage(LineParseError(m)) == ErrorMessage(LineParseError(n))
    ensures m == n
  {
    var p := LineErrorPrefix;
    assert NatToString(m) == ErrorMessage(LineParseError(m))[|p|..];
    assert NatToString(n) == ErrorMessage(LineParseError(n))[|p|..];
    NatToStringInjective(m, n);
  }

  /** The parse of the usable lines: the records, or why there are none. */
  function ParseLines(lines: seq<string>, parse: string -> Option<CopilotMetric>): (r: Result<seq<CopilotMetric>, LoadError>)
    ensures r == Failure(EmptyFile) <==> lines == []
    ensures r.Success? ==>
      |r.value| == |lines| >= 1 && forall i :: 0 <= i < |lines| ==> parse(lines[i]) == Some(r.value[i])
    ensures r.Failure? && r.error.LineParseError? ==>
      var k := r.error.line;
      && 1 <= k <= |lines|
      && parse(lines[k - 1]).None?
      && forall i :: 0 <= i < k - 1 ==> parse(lines[i]).Some?
  {
    if lines == [] then Failure(EmptyFile)
    else
      match ParseAll(lines, parse)
      case Success(parsed) => Success(parsed)
      case Failure(k) => Failure(LineParseError(k))
  }

  /** The whole parse: the records of every non-blank line, or why there are none. */
  function ParseText(text: string, parse: string -> Option<CopilotMetric>): (r: Result<seq<CopilotMetric>, LoadError>)
    ensures r == Failure(EmptyFile) <==> AllSpace(text)
    ensures r.Success? ==>
      var lines := NonBlankLines(text);
      |r.value| == |lines| >= 1 && forall i :: 0 <= i < |lines| ==> parse(lines[i]) == Some(r.value[i])
    ensures r.Failure? && r.error.LineParseError? ==>
      var lines := NonBlankLines(text);
      var k := r.error.line;
      && 1 <= k <= |lines|
      && parse(lines[k - 1]).None?
      && forall i :: 0 <= i < k - 1 ==> parse(lines[i]).Some?
  {
    NoLinesIffBlankText(text);
    ParseLines(NonBlankLines(text), parse)
  }

  /** What the network request returned: a response, or a rejected promise. */
  datatype FetchOutcome =
    | Response(ok: bool, statusText: string, body: string)
    | NetworkError(message: string)

  /** The records and the load state the dashboard reads. */
  class MetricsStore {
    var metrics: seq<CopilotMetric>
    var loading: bool
    var error: Option<string>
    var isDataLoaded: bool

    /** Start-up: the records restored from the session cache, empty when there are none. */
    constructor (stored: seq<CopilotMetric>)
      ensures metrics == stored
      ensures isDataLoaded == (|stored| > 0)
      ensures !loading && error == None
    {
      metrics := stored;
      loading := false;
      error := None;
      isDataLoaded := |stored| > 0;
    }

    /**
     * Parses `text` and, only if every line parsed, replaces the records
     * wholesale.  The failure it throws is returned instead.
     */
    method ParseMetricsFromText(text: string, parse: string -> Option<CopilotMetric>)
      returns (failure: Option<LoadError>)
      modifies this
      ensures loading == old(loading) && error == old(error)
      ensures ParseText(text, parse).Success? ==>
        failure == None && metrics == ParseText(text, parse).value && isDataLoaded
      ensures ParseText(text, parse).Failure? ==>
        failure == Some(ParseText(text, parse).error)
        && metrics == old(metrics) && isDataLoaded == old(isDataLoaded)
    {
      var lines := NonBlankLines(text);
      if lines == [] {
        return Some(EmptyFile);
      }
      var parsed := ParseAll(lines, parse);
      if parsed.Failure? {
        return Some(LineParseError(parsed.error));
      }
      metrics := parsed.value;
      isDataLoaded := true;
      failure := None;
    }

    /** Loads from text: on failure the records stay and `error` says why. */
    method LoadMetricsFromText(text: string, parse: string -> Option<CopilotMetric>)
      modifies this
      ensures !loading
      ensures ParseText(text, parse).Success? ==>
        metrics == ParseText(text, parse).value && isDataLoaded && error == None
      ensures ParseText(text, parse).Failure? ==>
        && metrics == old(metrics) && isDataLoaded == old(isDataLoaded)
        && error == Some(ErrorMessage(ParseText(text, parse).error))
    {
      loading := true;
      error := None;
      var failure := ParseMetricsFromText(text, parse);
      if failure.Some? {
        var message := ErrorMessage(failure.value);
        error := Some(message);
      }
      loading := false;
    }

    /** Loads from the network: a failed request leaves the records as they were. */
    method LoadMetrics(fetched: FetchOutcome, parse: string -> Option<CopilotMetric>)
      modifies this
      ensures !loading
      ensures fetched.NetworkError? ==>
        metrics == old(metrics) && isDataLoaded == old(isDataLoaded) && error == Some(fetched.message)
      ensures fetched.Response? && !fetched.ok ==>
        && metrics == old(metrics) && isDataLoaded == old(isDataLoaded)
        && error == Some("Failed to fetch metrics: " + fetched.statusText)
      ensures fetched.Response? && fetched.ok && ParseText(fetched.body, parse).Success? ==>
        metrics == ParseText(fetched.body, parse).value && isDataLoaded && error == None
      ensures fetched.Response? && fetched.ok && ParseText(fetched.body, parse).Failure? ==>
        && metrics == old(metrics) && isDataLoaded == old(isDataLoaded)
        && error == Some(ErrorMessage(ParseText(fetched.body, parse).error))
    {
      loading := true;
      error := None;
      match fetched {
        case NetworkError(message) =>
          error := Some(message);
        case Response(ok, statusText, body) =>
          if !ok {
            error := Some("Failed to fetch metrics: " + statusText);
          } else {
            var failure := ParseMetricsFromText(body, parse);
            if failure.Some? {
              error := Some(ErrorMessage(failure.value));
            }
          }
      }
      loading := false;
    }

    /** Forgets the records and the error. */
    method ClearMetrics()
      modifies this
      ensures metrics == [] && !isDataLoaded && error == None
      ensures loading == old(loading)
    {
      metrics := [];
      isDataLoaded := false;
      error := None;
    }
  }
}
