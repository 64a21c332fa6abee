/**
 * The `skip` section of a YAML REST test: the versions a test must not run against,
 * and the runner features it needs. Parsed from the token stream of the section's
 * object; `Skip` decides whether the test is skipped.
 *
 * `Version.fromString`, `VersionUtils.getFirstVersion()`, `Version.CURRENT`,
 * `VersionRange.contains` and `Features.areAllSupported` live elsewhere; they are
 * passed in as values and functions.
 */
module SkipSections {
  import opened Wrappers
  import opened JavaText

  /** An OpenSearch version, by its numeric id. */
  datatype Version = Version(id: int)

  /** A range of versions; a bound is null only in the range of a section without versions. */
  datatype VersionRange = VersionRange(lower: Option<Version>, upper: Option<Version>)

  /** The version facts parsing needs. */
  datatype VersionEnv = VersionEnv(
    fromString: string -> Option<Version>,   // Version.fromString; None where it throws
    first: Version,                          // VersionUtils.getFirstVersion()
    current: Version)                        // Version.CURRENT

  /**
   * The tokens of an XContent parser. `Value` is every scalar token that is a value
   * (`isValue()`), with its text; `NullValue` is VALUE_NULL, which is not one and has no text.
   */
  datatype XToken = StartObject | EndObject | StartArray | EndArray | FieldName(name: string) | Value(text: string) | NullValue

  /** The exceptions parsing throws. */
  datatype SkipError =
    | NotIndented                        // IllegalArgumentException: the section does not start with an object
    | UnsupportedField(field: Option<string>)  // ParsingException
    | VersionOrFeaturesMandatory         // ParsingException
    | ReasonMandatory                    // ParsingException
    | MalformedRange(rawRanges: string)  // IllegalArgumentException: a range with more than one '-'
    | MissingUpperBound(rawRange: string) // ArrayIndexOutOfBoundsException: a range with no '-'
    | BadVersion(text: string)           // what Version.fromString throws
    | IndexOutOfBounds                   // get on an empty list of ranges
    | NoRanges                           // AssertionError: the constructor's ranges are empty
    | UnexpectedEnd                      // the tokens end inside the section
    | NoText(token: XToken)              // IllegalStateException: `parser.text()` on a token that is not a value

  /**
   * A skip section. `Empty` is the `EMPTY` instance, the only one the private constructor
   * makes; every parsed section is a `Section`, so identity with `EMPTY` is being `Empty`.
   */
  datatype SkipSection =
    | Empty
    | Section(versionRanges: seq<VersionRange>, features: seq<string>, reason: Option<string>)
  {
    /** `isEmpty`: identity with `EMPTY`. */
    predicate IsEmpty() {
      Empty?
    }

    function Ranges(): seq<VersionRange> {
      if Empty? then [] else versionRanges
    }

    function Features(): seq<string> {
      if Empty? then [] else features
    }

    function Reason(): Option<string> {
      if Empty? then None else reason
    }
  }

  /** `Strings.hasLength`: not null and not empty. */
  predicate HasLength(s: Option<string>) {
    s.Some? && |s.value| > 0
  }

  // ----- version ranges -----

  /** One `lower - upper` piece of a version string; `rawRanges` is the whole string, for the message. */
  function RangeOf(rawRange: string, rawRanges: string, env: VersionEnv): (r: Result<VersionRange, SkipError>)
    ensures |SplitAll(rawRange, '-')| > 2 ==> r == Failure(MalformedRange(rawRanges))
    ensures |SplitAll(rawRange, '-')| < 2 ==> r == Failure(MissingUpperBound(rawRange))
    ensures r.Success? ==> |SplitAll(rawRange, '-')| == 2 && r.value.lower.Some? && r.value.upper.Some?
    ensures r.Success? && Trim(SplitAll(rawRange, '-')[0]) == "" ==> r.value.lower == Some(env.first)
    ensures r.Success? && Trim(SplitAll(rawRange, '-')[1]) == "" ==> r.value.upper == Some(env.current)
    ensures r.Success? && Trim(SplitAll(rawRange, '-')[0]) != "" ==>
      r.value.lower == env.fromString(Trim(SplitAll(rawRange, '-')[0]))
    ensures r.Success? && Trim(SplitAll(rawRange, '-')[1]) != "" ==>
      r.value.upper == env.fromString(Trim(SplitAll(rawRange, '-')[1]))
    ensures (&& |SplitAll(rawRange, '-')| == 2
             && Trim(SplitAll(rawRange, '-')[0]) != ""
             && env.fromString(Trim(SplitAll(rawRange, '-')[0])).None?)
            ==> r == Failure(BadVersion(Trim(SplitAll(rawRange, '-')[0])))
    ensures (&& |SplitAll(rawRange, '-')| == 2
             && (Trim(SplitAll(rawRange, '-')[0]) == "" || env.fromString(Trim(SplitAll(rawRange, '-')[0])).Some?)
             && Trim(SplitAll(rawRange, '-')[1]) != ""
             && env.fromString(Trim(SplitAll(rawRange, '-')[1])).None?)
            ==> r == Failure(BadVersion(Trim(SplitAll(rawRange, '-')[1])))
    ensures (&& |SplitAll(rawRange, '-')| == 2
             && (Trim(SplitAll(rawRange, '-')[0]) == "" || env.fromString(Trim(SplitAll(rawRange, '-')[0])).Some?)
             && (Trim(SplitAll(rawRange, '-')[1]) == "" || env.fromString(Trim(SplitAll(rawRange, '-')[1])).Some?))
            ==> r.Success?
  {
    var skipVersions := SplitAll(rawRange, '-');
    if |skipVersions| > 2 then Failure(MalformedRange(rawRanges))
    else if |skipVersions| < 2 then Failure(MissingUpperBound(rawRange))
    else
      var lower := Trim(skipVersions[0]);
      var upper := Trim(skipVersions[1]);
      var lowerVersion :- if lower == "" then Success(env.first) else Parsed(lower, env);
      var upperVersion :- if upper == "" then Success(env.current) else Parsed(upper, env);
      Success(VersionRange(Some(lowerVersion), Some(upperVersion)))
  }

  function Parsed(s: string, env: VersionEnv): Result<Version, SkipError> {
    match env.fromString(s)
    case Some(v) => Success(v)
    case None => Failure(BadVersion(s))
  }

  /** The ranges of `pieces`, in order, or the first piece's failure. */
  function RangesOf(pieces: seq<string>, rawRanges: string, env: VersionEnv): Result<seq<VersionRange>, SkipError> {
    if pieces == [] then Success([])
    else
      var range :- RangeOf(pieces[0], rawRanges, env);
      var rest :- RangesOf(pieces[1..], rawRanges, env);
      Success([range] + rest)
  }

  /** `parseVersionRanges`: null gives one unbounded range, "all" every version, else one range per ','-piece. */
  function VersionRanges(rawRanges: Option<string>, env: VersionEnv): Result<seq<VersionRange>, SkipError> {
    if rawRanges.None? then Success([VersionRange(None, None)])
    else if Trim(rawRanges.value) == "all" then Success([VersionRange(Some(env.first), Some(env.current))])
    else RangesOf(Split(rawRanges.value, ','), rawRanges.value, env)
  }

  /** Ranges come out one per piece, in the pieces' order, and every piece must parse. */
  lemma {:induction false} RangesOfInOrder(pieces: seq<string>, rawRanges: string, env: VersionEnv)
    ensures RangesOf(pieces, rawRanges, env).Success? <==> forall k :: 0 <= k < |pieces| ==> RangeOf(pieces[k], rawRanges, env).Success?
    ensures RangesOf(pieces, rawRanges, env).Success? ==>
      var ranges := RangesOf(pieces, rawRanges, env).value;
      |ranges| == |pieces| && forall k :: 0 <= k < |pieces| ==> ranges[k] == RangeOf(pieces[k], rawRanges, env).value
  {
    if pieces != [] {
      RangesOfInOrder(pieces[1..], rawRanges, env);
      assert forall k :: 1 <= k < |pieces| ==> pieces[1..][k - 1] == pieces[k];
    }
  }

  /** A piece without a '-' has no upper bound to index, so the whole string is rejected. */
  lemma PieceWithoutDashFails(rawRanges: string, env: VersionEnv, k: nat)
    requires Trim(rawRanges) != "all"
    requires k < |Split(rawRanges, ',')| && '-' !in Split(rawRanges, ',')[k]
    ensures VersionRanges(Some(rawRanges), env).Failure?
  {
    var pieces := Split(rawRanges, ',');
    RangesOfInOrder(pieces, rawRanges, env);
    assert SplitAll(pieces[k], '-') == [pieces[k]];
  }

  lemma RangesOfUnfold(pieces: seq<string>, k: nat, rawRanges: string, env: VersionEnv)
    requires k < |pieces|
    ensures RangeOf(pieces[k], rawRanges, env).Failure? ==>
      RangesOf(pieces[k..], rawRanges, env) == Failure(RangeOf(pieces[k], rawRanges, env).error)
    ensures RangeOf(pieces[k], rawRanges, env).Success? ==>
      RangesOf(pieces[k..], rawRanges, env) ==
        (var rest := RangesOf(pieces[k + 1..], rawRanges, env);
         if rest.Success? then Success([RangeOf(pieces[k], rawRanges, env).value] + rest.value) else rest)
  {
    assert pieces[k..][1..] == pieces[k + 1..];
  }

  /** `parseVersionRanges`, with its loop over the ','-pieces. */
  method ParseVersionRanges(rawRanges: Option<string>, env: VersionEnv) returns (r: Result<seq<VersionRange>, SkipError>)
    ensures r == VersionRanges(rawRanges, env)
    ensures rawRanges.None? ==> r == Success([VersionRange(None, None)])
    ensures rawRanges.Some? && Trim(rawRanges.value) == "all" ==> r == Success([VersionRange(Some(env.first), Some(env.current))])
  {
    if rawRanges.None? {
      return Success([VersionRange(None, None)]);
    }
    var raw := rawRanges.value;
    if Trim(raw) == "all" {
      return Success([VersionRange(Some(env.first), Some(env.current))]);
    }
    r := ParseRanges(Split(raw, ','), raw, env);
  }

  /** The loop of `parseVersionRanges` over the ','-pieces of `raw`. */
  method ParseRanges(ranges: seq<string>, raw: string, env: VersionEnv) returns (r: Result<seq<VersionRange>, SkipError>)
    ensures r == RangesOf(ranges, raw, env)
  {
    var versionRanges: seq<VersionRange> := [];
    assert ranges[0..] == ranges;
    assert RangesOf(ranges, raw, env).Success? ==> [] + RangesOf(ranges, raw, env).value == RangesOf(ranges, raw, env).value;
    for k := 0 to |ranges|
      invariant RangesOf(ranges[k..], raw, env).Failure? ==> RangesOf(ranges, raw, env) == RangesOf(ranges[k..], raw, env)
      invariant RangesOf(ranges[k..], raw, env).Success? ==>
        RangesOf(ranges, raw, env) == Success(versionRanges + RangesOf(ranges[k..], raw, env).value)
    {
      RangesOfUnfold(ranges, k, raw, env);
      var versionRange :- RangeOf(ranges[k], raw, env);
      ghost var rest := RangesOf(ranges[k + 1..], raw, env);
      if rest.Success? {
        assert versionRanges + ([versionRange] + rest.value) == versionRanges + [versionRange] + rest.value;
      }
      versionRanges := versionRanges + [versionRange];
    }
    assert ranges[|ranges|..] == [];
    assert versionRanges + [] == versionRanges;
    return Success(versionRanges);
  }

  // ----- the section's token scan -----

  /** The parser's state: the current field name, what has been read, and whether it is inside a features array. */
  datatype Scan = Scan(field: Option<string>, version: Option<string>, reason: Option<string>, features: seq<string>, inArray: bool)

  const Initial := Scan(None, None, None, [], false)

  /** Every piece, trimmed. */
  function TrimAll(pieces: seq<string>): (r: seq<string>)
    ensures |r| == |pieces| && forall k :: 0 <= k < |pieces| ==> r[k] == Trim(pieces[k])
  {
    seq(|pieces|, k requires 0 <= k < |pieces| => Trim(pieces[k]))
  }

  lemma TrimAllAppend(pieces: seq<string>, piece: string)
    ensures TrimAll(pieces + [piece]) == TrimAll(pieces) + [Trim(piece)]
  {
    var l, r := TrimAll(pieces + [piece]), TrimAll(pieces) + [Trim(piece)];
    assert |l| == |r|;
    forall k | 0 <= k < |l|
      ensures l[k] == r[k]
    {
      if k < |pieces| {
        assert (pieces + [piece])[k] == pieces[k];
      }
    }
  }

  /** What one token, other than the section's closing END_OBJECT, does to the parser's state. */
  function Step(st: Scan, t: XToken): Result<Scan, SkipError> {
    if st.inArray then
      if t == EndArray then Success(st.(inArray := false))
      else if t.Value? then Success(st.(features := st.features + [t.text]))
      else Failure(NoText(t))
    else match t
      case FieldName(name) => Success(st.(field := Some(name)))
      case Value(text) =>
        if st.field == Some("version") then Success(st.(version := Some(text)))
        else if st.field == Some("reason") then Success(st.(reason := Some(text)))
        else if st.field == Some("features") then Success(st.(features := st.features + TrimAll(Split(text, ','))))
        else Failure(UnsupportedField(st.field))
      case StartArray => if st.field == Some("features") then Success(st.(inArray := true)) else Success(st)
      case _ => Success(st)
  }

  /** The scan from token `i` on, up to the END_OBJECT that closes the section: the state and the position after it. */
  function Run(tokens: seq<XToken>, i: nat, st: Scan): Result<(Scan, nat), SkipError>
    decreases |tokens| - i
  {
    if i >= |tokens| then Failure(UnexpectedEnd)
    else if !st.inArray && tokens[i] == EndObject then Success((st, i + 1))
    else
      var next :- Step(st, tokens[i]);
      Run(tokens, i + 1, next)
  }

  /** `new SkipSection(version, features, reason)`, with its assertion that some range was given. */
  function NewSection(version: Option<string>, features: seq<string>, reason: Option<string>, env: VersionEnv): (r: Result<SkipSection, SkipError>)
    ensures r.Success? ==> r.value.Section? && r.value.versionRanges != []
    ensures r.Success? <==> VersionRanges(version, env).Success? && VersionRanges(version, env).value != []
    ensures r.Success? ==> r.value == Section(VersionRanges(version, env).value, features, reason)
  {
    var ranges :- VersionRanges(version, env);
    if ranges == [] then Failure(NoRanges) else Success(Section(ranges, features, reason))
  }

  /** The checks after the scan: versions or features must be given, and versions need a reason. */
  function Finish(st: Scan, env: VersionEnv): (r: Result<SkipSection, SkipError>)
    ensures !HasLength(st.version) && st.features == [] ==> r == Failure(VersionOrFeaturesMandatory)
    ensures HasLength(st.version) && !HasLength(st.reason) ==> r == Failure(ReasonMandatory)
    ensures r.Success? ==> r.value.Section? && r.value.features == st.features && r.value.reason == st.reason
    ensures r.Success? ==> VersionRanges(st.version, env) == Success(r.value.versionRanges) && r.value.versionRanges != []
    ensures (HasLength(st.version) || st.features != []) && (!HasLength(st.version) || HasLength(st.reason)) ==>
              r == NewSection(st.version, st.features, st.reason, env)
  {
    if !HasLength(st.version) && st.features == [] then Failure(VersionOrFeaturesMandatory)
    else if HasLength(st.version) && !HasLength(st.reason) then Failure(ReasonMandatory)
    else NewSection(st.version, st.features, st.reason, env)
  }

  /** `parse`, as a function of the tokens after the `skip` field name. */
  function ParseSpec(tokens: seq<XToken>, env: VersionEnv): Result<SkipSection, SkipError> {
    if |tokens| == 0 || tokens[0] != StartObject then Failure(NotIndented)
    else
      var (st, _) :- Run(tokens, 1, Initial);
      Finish(st, env)
  }

  /** `parse`: the token loop of the source, over the tokens that follow the `skip` field name. */
  method Parse(tokens: seq<XToken>, env: VersionEnv) returns (r: Result<SkipSection, SkipError>)
    ensures r == ParseSpec(tokens, env)
    ensures |tokens| == 0 || tokens[0] != StartObject ==> r == Failure(NotIndented)
  {
    if |tokens| == 0 || tokens[0] != StartObject {
      return Failure(NotIndented);
    }
    var currentFieldName: Option<string> := None;
    var version: Option<string> := None;
    var reason: Option<string> := None;
    var features: seq<string> := [];
    var i := 1;
    while true
      invariant 1 <= i <= |tokens|
      invariant Run(tokens, 1, Initial) == Run(tokens, i, Scan(currentFieldName, version, reason, features, false))
      decreases |tokens| - i
    {
      if i == |tokens| {
        return Failure(UnexpectedEnd);
      }
      var token := tokens[i];
      i := i + 1;
      if token == EndObject {
        break;
      }
      if token.FieldName? {
        currentFieldName := Some(token.name);
      } else if token.Value? {
        if currentFieldName == Some("version") {
          version := Some(token.text);
        } else if currentFieldName == Some("reason") {
          reason := Some(token.text);
        } else if currentFieldName == Some("features") {
          features := AddTrimmed(features, token.text);
        } else {
          return Failure(UnsupportedField(currentFieldName));
        }
      } else if token == StartArray {
        if currentFieldName == Some("features") {
          var next :- ReadFeaturesArray(tokens, i, Scan(currentFieldName, version, reason, features, true));
          features, i := next.0.features, next.1;
        }
      }
    }
    var versionRanges :- ParseFinish(version, features, reason, env);
    r := Success(versionRanges);
  }

  /** Adds the trimmed ','-pieces of a scalar `features` value. */
  method AddTrimmed(features: seq<string>, text: string) returns (r: seq<string>)
    ensures r == features + TrimAll(Split(text, ','))
  {
    var fs := Split(text, ',');
    r := features;
    for k := 0 to |fs|
      invariant r == features + TrimAll(fs[..k])
    {
      assert fs[..k + 1] == fs[..k] + [fs[k]];
      TrimAllAppend(fs[..k], fs[k]);
      r := r + [Trim(fs[k])];
    }
    assert fs[..|fs|] == fs;
  }

  /**
   * The inner loop over a `features` array: every value up to END_ARRAY is a feature, by its
   * text; any other token has no text to read.
   */
  method ReadFeaturesArray(tokens: seq<XToken>, start: nat, st: Scan) returns (r: Result<(Scan, nat), SkipError>)
    requires st.inArray && start <= |tokens|
    ensures r.Failure? ==> r == Run(tokens, start, st)
    ensures r.Success? ==> start < r.value.1 <= |tokens| && tokens[r.value.1 - 1] == EndArray
    ensures r.Success? ==> r.value.0 == st.(features := r.value.0.features, inArray := false)
    ensures r.Success? ==> st.features <= r.value.0.features
    ensures r.Success? ==> tokens[start..r.value.1 - 1] == Values(r.value.0.features[|st.features|..])
    ensures r.Success? ==> Run(tokens, start, st) == Run(tokens, r.value.1, r.value.0)
  {
    var i := start;
    var added: seq<string> := [];
    assert st.features + added == st.features;
    while true
      invariant start <= i <= |tokens| && tokens[start..i] == Values(added)
      invariant Run(tokens, start, st) == Run(tokens, i, st.(features := st.features + added))
      decreases |tokens| - i
    {
      if i == |tokens| {
        return Failure(UnexpectedEnd);
      }
      var t := tokens[i];
      i := i + 1;
      if t == EndArray {
        break;
      }
      if !t.Value? {
        return Failure(NoText(t));
      }
      ValuesAppend(added, t.text);
      assert tokens[start..i] == tokens[start..i - 1] + [t];
      assert st.features + added + [t.text] == st.features + (added + [t.text]);
      added := added + [t.text];
    }
    var features := st.features + added;
    assert features[|st.features|..] == added;
    return Success((st.(features := features, inArray := false), i));
  }

  lemma ValuesAppend(texts: seq<string>, text: string)
    ensures Values(texts + [text]) == Values(texts) + [Value(text)]
  {
    assert Values(texts + [text])[|texts|] == Value(text);
  }

  /** The checks after the loop, and the constructor they lead to. */
  method ParseFinish(version: Option<string>, features: seq<string>, reason: Option<string>, env: VersionEnv)
    returns (r: Result<SkipSection, SkipError>)
    ensures r == Finish(Scan(None, version, reason, features, false), env)
  {
    if !HasLength(version) && features == [] {
      return Failure(VersionOrFeaturesMandatory);
    }
    if HasLength(version) && !HasLength(reason) {
      return Failure(ReasonMandatory);
    }
    var versionRanges :- ParseVersionRanges(version, env);
    if versionRanges == [] {
      return Failure(NoRanges);
    }
    r := Success(Section(versionRanges, features, reason));
  }

  /** `parseIfNext`, once the parser stands on a field name: a `skip` field is parsed, anything else means no section. */
  method ParseIfNext(currentName: string, tokens: seq<XToken>, env: VersionEnv) returns (r: Result<SkipSection, SkipError>)
    ensures currentName != "skip" ==> r == Success(Empty)
    ensures currentName == "skip" ==> r == ParseSpec(tokens, env)
  {
    if currentName == "skip" {
      r := Parse(tokens, env);
    } else {
      r := Success(Empty);
    }
  }

  // ----- properties of the scan -----

  /** The value tokens of `texts`. */
  function Values(texts: seq<string>): (r: seq<XToken>)
    ensures |r| == |texts| && forall k :: 0 <= k < |texts| ==> r[k] == Value(texts[k])
  {
    seq(|texts|, k requires 0 <= k < |texts| => Value(texts[k]))
  }

  /** A successful scan stops just after an END_OBJECT, outside any array. */
  lemma {:induction false} RunStopsAtEndObject(tokens: seq<XToken>, i: nat, st: Scan)
    requires Run(tokens, i, st).Success?
    ensures i < Run(tokens, i, st).value.1 <= |tokens|
    ensures tokens[Run(tokens, i, st).value.1 - 1] == EndObject
    ensures !Run(tokens, i, st).value.0.inArray
    decreases |tokens| - i
  {
    if !(!st.inArray && tokens[i] == EndObject) {
      RunStopsAtEndObject(tokens, i + 1, Step(st, tokens[i]).value);
    }
  }

  /** Features are only ever added: what was read before is a prefix of what the scan ends with. */
  lemma {:induction false} RunOnlyAddsFeatures(tokens: seq<XToken>, i: nat, st: Scan)
    requires Run(tokens, i, st).Success?
    ensures st.features <= Run(tokens, i, st).value.0.features
    decreases |tokens| - i
  {
    if !(!st.inArray && tokens[i] == EndObject) {
      var next := Step(st, tokens[i]).value;
      RunOnlyAddsFeatures(tokens, i + 1, next);
      assert st.features <= next.features;
    }
  }

  /** Inside a features array every value is added as it is, in order. */
  lemma {:induction false} RunOverArrayValues(tokens: seq<XToken>, i: nat, st: Scan, texts: seq<string>)
    requires st.inArray && i + |texts| <= |tokens|
    requires tokens[i..i + |texts|] == Values(texts)
    ensures Run(tokens, i, st) == Run(tokens, i + |texts|, st.(features := st.features + texts))
    decreases |texts|
  {
    if texts == [] {
      assert st.features + texts == st.features;
    } else {
      assert tokens[i] == tokens[i..i + |texts|][0] == Value(texts[0]);
      assert tokens[i + 1..i + |texts|] == tokens[i..i + |texts|][1..];
      assert Values(texts)[1..] == Values(texts[1..]);
      RunOverArrayValues(tokens, i + 1, st.(features := st.features + [texts[0]]), texts[1..]);
      assert st.features + [texts[0]] + texts[1..] == st.features + texts;
    }
  }

  /** `features: [a, b, ...]` gives exactly those features, untrimmed and in order, with no version bound. */
  lemma FeaturesArrayParsed(texts: seq<string>, env: VersionEnv)
    requires texts != []
    ensures ParseSpec([StartObject, FieldName("features"), StartArray] + Values(texts) + [EndArray, EndObject], env)
      == Success(Section([VersionRange(None, None)], texts, None))
  {
    var tokens := [StartObject, FieldName("features"), StartArray] + Values(texts) + [EndArray, EndObject];
    var named := Initial.(field := Some("features"));
    var inArray := named.(inArray := true);
    assert tokens[1] == FieldName("features") && tokens[2] == StartArray;
    assert Run(tokens, 1, Initial) == Run(tokens, 2, named) == Run(tokens, 3, inArray);
    assert tokens[3..3 + |texts|] == Values(texts);
    RunOverArrayValues(tokens, 3, inArray, texts);
    assert inArray.features + texts == texts;
    var done := inArray.(features := texts);
    assert tokens[3 + |texts|] == EndArray && tokens[4 + |texts|] == EndObject;
    assert Run(tokens, 3 + |texts|, done) == Success((done.(inArray := false), 5 + |texts|));
  }

  /** `features: "a, b"` gives the trimmed ','-pieces; a value with no pieces leaves the section without features. */
  lemma ScalarFeaturesParsed(text: string, env: VersionEnv)
    ensures var fs := TrimAll(Split(text, ','));
      ParseSpec([StartObject, FieldName("features"), Value(text), EndObject], env)
        == if fs == [] then Failure(VersionOrFeaturesMandatory) else Success(Section([VersionRange(None, None)], fs, None))
  {
    var tokens := [StartObject, FieldName("features"), Value(text), EndObject];
    var named := Initial.(field := Some("features"));
    var st := named.(features := TrimAll(Split(text, ',')));
    assert Run(tokens, 1, Initial) == Run(tokens, 2, named);
    assert named.features + TrimAll(Split(text, ',')) == st.features;
    assert Step(named, Value(text)) == Success(st);
    assert Run(tokens, 2, named) == Run(tokens, 3, st) == Success((st, 4));
  }

  /** A version with a reason parses to the ranges of the version; a version without one is refused. */
  lemma VersionNeedsReason(version: string, reason: string, env: VersionEnv)
    requires |version| > 0
    ensures ParseSpec([StartObject, FieldName("version"), Value(version), EndObject], env) == Failure(ReasonMandatory)
    ensures |reason| > 0 ==>
      ParseSpec([StartObject, FieldName("version"), Value(version), FieldName("reason"), Value(reason), EndObject], env)
        == NewSection(Some(version), [], Some(reason), env)
  {
    var t1 := [StartObject, FieldName("version"), Value(version), EndObject];
    var s1 := Initial.(field := Some("version"), version := Some(version));
    assert Run(t1, 1, Initial) == Run(t1, 3, s1) == Success((s1, 4));
    var t2 := [StartObject, FieldName("version"), Value(version), FieldName("reason"), Value(reason), EndObject];
    var s2 := s1.(field := Some("reason"), reason := Some(reason));
    assert Run(t2, 1, Initial) == Run(t2, 3, s1) == Run(t2, 5, s2) == Success((s2, 6));
  }

  /**
   * Wherever the scan stands outside an array, a value under a field other than version,
   * reason and features (or under no field yet) makes the whole parse fail, naming that field.
   */
  lemma UnsupportedFieldRefused(tokens: seq<XToken>, i: nat, s: Scan, text: string, env: VersionEnv)
    requires |tokens| > 0 && tokens[0] == StartObject
    requires 1 <= i < |tokens| && Run(tokens, 1, Initial) == Run(tokens, i, s)
    requires !s.inArray && tokens[i] == Value(text)
    requires s.field != Some("version") && s.field != Some("reason") && s.field != Some("features")
    ensures ParseSpec(tokens, env) == Failure(UnsupportedField(s.field))
  {
  }

  /** A null value is not a value token: outside an array it is skipped, whatever the field. */
  lemma NullValueIgnored(tokens: seq<XToken>, i: nat, st: Scan)
    requires !st.inArray && i < |tokens| && tokens[i] == NullValue
    ensures Run(tokens, i, st) == Run(tokens, i + 1, st)
  {
  }

  /** Inside a features array, a token other than a value or END_ARRAY has no text to read. */
  lemma NonValueInArrayRefused(tokens: seq<XToken>, i: nat, st: Scan)
    requires st.inArray && i < |tokens| && !tokens[i].Value? && tokens[i] != EndArray
    ensures Run(tokens, i, st) == Failure(NoText(tokens[i]))
  {
  }

  /** `version: null` leaves the version unset, so a features section around it parses as if it were absent. */
  lemma NullVersionParsed(feature: string, env: VersionEnv)
    ensures ParseSpec([StartObject, FieldName("version"), NullValue, FieldName("features"), Value(feature), EndObject], env)
      == ParseSpec([StartObject, FieldName("features"), Value(feature), EndObject], env)
  {
    var t1 := [StartObject, FieldName("version"), NullValue, FieldName("features"), Value(feature), EndObject];
    var t2 := [StartObject, FieldName("features"), Value(feature), EndObject];
    var named := Initial.(field := Some("features"));
    var st := named.(features := TrimAll(Split(feature, ',')));
    assert named.features + TrimAll(Split(feature, ',')) == st.features;
    var versionField := Initial.(field := Some("version"));
    assert Run(t1, 1, Initial) == Run(t1, 2, versionField) == Run(t1, 3, versionField) == Run(t1, 4, named);
    assert Run(t1, 4, named) == Run(t1, 5, st) == Success((st, 6));
    assert Run(t2, 1, Initial) == Run(t2, 2, named) == Success((st, 4));
  }

  /** `features: [{}]`: an object inside the features array is refused, not read as text. */
  lemma ObjectInFeaturesArrayRefused(env: VersionEnv)
    ensures ParseSpec([StartObject, FieldName("features"), StartArray, StartObject, EndObject, EndArray, EndObject], env)
      == Failure(NoText(StartObject))
  {
    var tokens := [StartObject, FieldName("features"), StartArray, StartObject, EndObject, EndArray, EndObject];
    var named := Initial.(field := Some("features"));
    assert Run(tokens, 1, Initial) == Run(tokens, 2, named) == Run(tokens, 3, named.(inArray := true));
  }

  // ----- using a section -----

  /** Whether some range contains `v`. */
  function AnyContains(ranges: seq<VersionRange>, v: Version, contains: (VersionRange, Version) -> bool): (r: bool)
    ensures r <==> exists k :: 0 <= k < |ranges| && contains(ranges[k], v)
  {
    if ranges == [] then false
    else contains(ranges[0], v) || AnyContains(ranges[1..], v, contains)
  }

  /**
   * `skip`: never for `EMPTY`; otherwise when a range contains the running version or a
   * feature is not supported. `contains` is `VersionRange.contains`, `allSupported` is
   * `Features.areAllSupported`.
   */
  function Skip(s: SkipSection, currentVersion: Version, contains: (VersionRange, Version) -> bool,
                allSupported: seq<string> -> bool): (r: bool)
    ensures s.Empty? ==> !r
    ensures s.Section? ==>
      (r <==> (exists k :: 0 <= k < |s.versionRanges| && contains(s.versionRanges[k], currentVersion)) || !allSupported(s.features))
  {
    if s.IsEmpty() then false
    else AnyContains(s.versionRanges, currentVersion, contains) || !allSupported(s.features)
  }

  /** `isVersionCheck`: the section names no features (so `EMPTY` is one). */
  predicate IsVersionCheck(s: SkipSection) {
    s.Features() == []
  }

  /** Parsed sections without features are version checks, and they always have a version with a reason. */
  lemma VersionCheckHasVersion(tokens: seq<XToken>, env: VersionEnv)
    requires ParseSpec(tokens, env).Success? && IsVersionCheck(ParseSpec(tokens, env).value)
    ensures tokens[0] == StartObject
    ensures var st := Run(tokens, 1, Initial).value.0;
      HasLength(st.version) && HasLength(st.reason) && ParseSpec(tokens, env).value.reason == st.reason
  {
  }

  /** `getLowerVersion`: the lower bound of the first range; `EMPTY` has none to index. */
  function GetLowerVersion(s: SkipSection): (r: Result<Option<Version>, SkipError>)
    ensures r.Failure? <==> s.Ranges() == []
    ensures r.Success? ==> r.value == s.Ranges()[0].lower
  {
    var ranges := s.Ranges();
    if ranges == [] then Failure(IndexOutOfBounds) else Success(ranges[0].lower)
  }

  /** `getUpperVersion`: the upper bound of the last range; `EMPTY` has none to index. */
  function GetUpperVersion(s: SkipSection): (r: Result<Option<Version>, SkipError>)
    ensures r.Failure? <==> s.Ranges() == []
    ensures r.Success? ==> r.value == s.Ranges()[|s.Ranges()| - 1].upper
  {
    var ranges := s.Ranges();
    if ranges == [] then Failure(IndexOutOfBounds) else Success(ranges[|ranges| - 1].upper)
  }

  /** Every parsed section has both bounds; only `EMPTY` lacks them. */
  lemma ParsedSectionHasBounds(tokens: seq<XToken>, env: VersionEnv)
    requires ParseSpec(tokens, env).Success?
    ensures GetLowerVersion(ParseSpec(tokens, env).value).Success?
    ensures GetUpperVersion(ParseSpec(tokens, env).value).Success?
  {
  }

  /** Java's `List.toString`: the elements between brackets, separated by ", ". */
  function ListToString(xs: seq<string>): string {
    "[" + JoinComma(xs) + "]"
  }

  function JoinComma(xs: seq<string>): string {
    if xs == [] then "" else if |xs| == 1 then xs[0] else xs[0] + ", " + JoinComma(xs[1..])
  }

  /**
   * `getSkipMessage`: "[description] skipped," then the reason, if any, then the
   * unsupported features, if any.
   */
  function GetSkipMessage(s: SkipSection, description: string): string {
    "[" + description + "] skipped," + ReasonPart(s.Reason()) + FeaturesPart(s.Features())
  }

  function ReasonPart(reason: Option<string>): string {
    if reason.Some? then " reason: [" + reason.value + "]" else ""
  }

  function FeaturesPart(features: seq<string>): string {
    if features != [] then " unsupported features " + ListToString(features) else ""
  }

  /**
   * The message always opens with the description; the reason follows it when there is
   * one, the features close it when there are any, and with neither it is just the opening.
   */
  lemma SkipMessageShape(s: SkipSection, description: string)
    ensures "[" + description + "] skipped," <= GetSkipMessage(s, description)
    ensures |GetSkipMessage(s, description)| == |description| + 11 <==> s.Reason().None? && s.Features() == []
    ensures s.Reason().Some? ==> "[" + description + "] skipped, reason: [" + s.Reason().value + "]" <= GetSkipMessage(s, description)
    ensures s.Features() != [] ==>
      var r, l := GetSkipMessage(s, description), ListToString(s.Features());
      |l| <= |r| && r[|r| - |l|..] == l
  {
    var head := "[" + description + "] skipped,";
    var rp, fp := ReasonPart(s.Reason()), FeaturesPart(s.Features());
    ConcatOfThree(head, rp, fp);
    if s.Reason().Some? {
      assert head + rp == "[" + description + "] skipped, reason: [" + s.Reason().value + "]";
    }
    if s.Features() != [] {
      EndsWith(head + rp + " unsupported features ", ListToString(s.Features()));
      assert head + rp + fp == head + rp + " unsupported features " + ListToString(s.Features());
    }
  }

  lemma ConcatOfThree(a: string, b: string, c: string)
    ensures a <= a + b + c && a + b <= a + b + c
    ensures |a + b + c| == |a| + |b| + |c|
  {
    assert (a + b + c)[..|a + b|] == a + b;
    assert (a + b)[..|a|] == a;
  }

  lemma EndsWith(a: string, l: string)
    ensures (a + l)[|a + l| - |l|..] == l
  {
  }
}
