/**
 How the result of a PromQL query becomes a verdict, and how a health endpoint turns the
 verdict into an HTTP status.
 */
module HealthVerdict {
  /** A sample value. Only its comparison with 1.0 matters. */
  datatype Float = Num(value: real) | Infinite(negative: bool) | NotANumber

  predicate IsOne(f: Float) {
    f == Num(1.0)
  }

  /** One sample of a vector: a float, or a histogram. */
  datatype Sample = FloatSample(f: Float) | HistogramSample

  /** One series of a matrix: its float points; the code never looks at its histograms. */
  datatype Series = Series(floats: seq<Float>, histograms: nat)

  datatype Value =
    | Scalar(v: Float)
    | Vector(samples: seq<Sample>)
    | Matrix(series: seq<Series>)
    | Text(text: string)
    | OtherValue

  datatype Error = QueryError | HistogramInVector | NeitherOneNorZero | UnknownType

  /** A query that ran: an execution error, or a value. */
  datatype QueryResult = QueryResult(err: bool, value: Value)

  datatype Verdict = Healthy | Unhealthy | Erroneous(error: Error)

  // ---------- what the verdict is ----------

  predicate AllFloatsOne(samples: seq<Sample>) {
    forall i :: 0 <= i < |samples| ==> samples[i].FloatSample? && IsOne(samples[i].f)
  }

  /** The first sample that is not a float 1.0, or the length. */
  function FirstBad(samples: seq<Sample>): (k: nat)
    ensures k <= |samples| && AllFloatsOne(samples[..k])
    ensures k < |samples| ==> !(samples[k].FloatSample? && IsOne(samples[k].f))
  {
    if samples == [] then 0
    else if samples[0].FloatSample? && IsOne(samples[0].f) then
      var k := 1 + FirstBad(samples[1..]);
      assert samples[..k] == [samples[0]] + samples[1..][..k - 1];
      k
    else 0
  }

  function Flatten(series: seq<Series>): seq<Float> {
    if series == [] then [] else series[0].floats + Flatten(series[1..])
  }

  predicate AllOne(floats: seq<Float>) {
    forall i :: 0 <= i < |floats| ==> IsOne(floats[i])
  }

  /** The text up to the first space. */
  function FirstToken(s: string): (r: string)
    ensures ' ' !in r && r <= s && (r == s || s[|r|] == ' ')
  {
    if s == "" || s[0] == ' ' then "" else [s[0]] + FirstToken(s[1..])
  }

  /** A vector is judged by its first sample that is not a float 1.0. */
  function VectorVerdict(samples: seq<Sample>): Verdict {
    var k := FirstBad(samples);
    if k == |samples| then Healthy
    else if samples[k].HistogramSample? then Erroneous(HistogramInVector)
    else Unhealthy
  }

  function MatrixVerdict(series: seq<Series>): Verdict {
    if AllOne(Flatten(series)) then Healthy else Unhealthy
  }

  function TextVerdict(text: string): Verdict {
    var token := FirstToken(text);
    if token == "1" || token == "1.0" then Healthy
    else if token == "0" || token == "0.0" then Unhealthy
    else Erroneous(NeitherOneNorZero)
  }

  function VerdictOf(r: QueryResult): Verdict {
    if r.err then Erroneous(QueryError)
    else
      match r.value
      case Scalar(v) => if IsOne(v) then Healthy else Unhealthy
      case Vector(samples) => VectorVerdict(samples)
      case Matrix(series) => MatrixVerdict(series)
      case Text(text) => TextVerdict(text)
      case OtherValue => Erroneous(UnknownType)
  }

  // ---------- the code ----------

  lemma {:induction false} FirstBadIs(samples: seq<Sample>, i: nat)
    requires i < |samples| && AllFloatsOne(samples[..i]) && !(samples[i].FloatSample? && IsOne(samples[i].f))
    ensures FirstBad(samples) == i
    decreases i
  {
    if i == 0 {
    } else {
      assert samples[..i][0] == samples[0];
      assert samples[1..][..i - 1] == samples[..i][1..];
      FirstBadIs(samples[1..], i - 1);
    }
  }

  method JudgeVector(samples: seq<Sample>) returns (verdict: Verdict)
    ensures verdict == VectorVerdict(samples)
  {
    for i := 0 to |samples|
      invariant AllFloatsOne(samples[..i])
    {
      if samples[i].FloatSample? {
        if !IsOne(samples[i].f) {
          FirstBadIs(samples, i);
          return Unhealthy;
        }
      } else {
        FirstBadIs(samples, i);
        return Erroneous(HistogramInVector);
      }
    }
    assert samples[..|samples|] == samples;
    return Healthy;
  }

  /** The floats of a matrix: those of the series before k, of series k, and of those after. */
  lemma {:induction false} FlattenSplit(series: seq<Series>, k: nat)
    requires k < |series|
    ensures Flatten(series) == Flatten(series[..k]) + series[k].floats + Flatten(series[k + 1..])
    ensures Flatten(series[..k + 1]) == Flatten(series[..k]) + series[k].floats
    decreases k
  {
    if k == 0 {
    } else {
      FlattenSplit(series[1..], k - 1);
      assert series[..k][1..] == series[1..][..k - 1];
      assert series[..k + 1][1..] == series[1..][..k];
    }
  }

  lemma BadFloat(series: seq<Series>, k: nat, i: nat)
    requires k < |series| && i < |series[k].floats| && !IsOne(series[k].floats[i])
    ensures !AllOne(Flatten(series))
  {
    FlattenSplit(series, k);
    assert Flatten(series)[|Flatten(series[..k])| + i] == series[k].floats[i];
  }

  method JudgeMatrix(series: seq<Series>) returns (verdict: Verdict)
    ensures verdict == MatrixVerdict(series)
  {
    for k := 0 to |series|
      invariant AllOne(Flatten(series[..k]))
    {
      var floats := series[k].floats;
      for i := 0 to |floats|
        invariant AllOne(floats[..i])
      {
        if !IsOne(floats[i]) {
          BadFloat(series, k, i);
          return Unhealthy;
        }
      }
      FlattenSplit(series, k);
      assert floats[..|floats|] == floats;
    }
    assert series[..|series|] == series;
    return Healthy;
  }

  lemma {:induction false} FirstTokenIs(s: string, k: nat)
    requires k <= |s| && ' ' !in s[..k] && (k < |s| ==> s[k] == ' ')
    ensures FirstToken(s) == s[..k]
    decreases k
  {
    if k == 0 {
    } else {
      assert s[..k][0] == s[0];
      assert s[1..][..k - 1] == s[..k][1..];
      FirstTokenIs(s[1..], k - 1);
    }
  }

  /** The text up to the first space decides. */
  method JudgeText(text: string) returns (verdict: Verdict)
    ensures verdict == TextVerdict(text)
  {
    var k := 0;
    while k < |text| && text[k] != ' '
      invariant k <= |text| && ' ' !in text[..k]
    {
      k := k + 1;
    }
    FirstTokenIs(text, k);
    var first := text[..k];
    if first == "1" || first == "1.0" {
      verdict := Healthy;
    } else if first == "0" || first == "0.0" {
      verdict := Unhealthy;
    } else {
      verdict := Erroneous(NeitherOneNorZero);
    }
  }

  method HandleQueryResult(result: QueryResult) returns (verdict: Verdict)
    ensures verdict == VerdictOf(result)
  {
    if result.err {
      return Erroneous(QueryError);
    }
    match result.value
    case Scalar(v) => verdict := if IsOne(v) then Healthy else Unhealthy;
    case Vector(samples) => verdict := JudgeVector(samples);
    case Matrix(series) => verdict := JudgeMatrix(series);
    case Text(text) => verdict := JudgeText(text);
    case OtherValue => verdict := Erroneous(UnknownType);
  }

  // ---------- what the verdict means ----------

  const OK := 200
  const SERVICE_UNAVAILABLE := 503

  /** The status line for a verdict; an error counts as unhealthy. */
  function Status(v: Verdict): int {
    if v.Healthy? then OK else SERVICE_UNAVAILABLE
  }

  /** A vector is healthy exactly when every sample is a float 1.0. It is an error, rather than
      unhealthy, exactly when a histogram comes before every float that is not 1.0. */
  lemma {:induction false} VectorVerdictIff(samples: seq<Sample>)
    ensures VectorVerdict(samples).Healthy? <==> AllFloatsOne(samples)
    ensures VectorVerdict(samples).Erroneous?
            <==> exists k :: 0 <= k < |samples| && samples[k].HistogramSample? && AllFloatsOne(samples[..k])
  {
    var k := FirstBad(samples);
    assert samples[..|samples|] == samples;
    if j :| 0 <= j < |samples| && samples[j].HistogramSample? && AllFloatsOne(samples[..j]) {
      FirstBadIs(samples, j);
    }
  }

  lemma SameBag<T>(a: seq<T>, b: seq<T>)
    requires multiset(a) == multiset(b)
    ensures forall i :: 0 <= i < |b| ==> b[i] in a
  {
    forall i | 0 <= i < |b| ensures b[i] in a {
      assert b[i] in multiset(b);
    }
  }

  /** Permuting the samples of a vector never changes the status... */
  lemma VectorOrderIrrelevant(a: seq<Sample>, b: seq<Sample>)
    requires multiset(a) == multiset(b)
    ensures Status(VectorVerdict(a)) == Status(VectorVerdict(b))
  {
    VectorVerdictIff(a);
    VectorVerdictIff(b);
    SameBag(a, b);
    SameBag(b, a);
  }

  /** ...although it can change whether an error is reported. */
  lemma VectorErrorDependsOnOrder()
    ensures var zero, histogram := FloatSample(Num(0.0)), HistogramSample;
            VectorVerdict([zero, histogram]) == Unhealthy
            && VectorVerdict([histogram, zero]) == Erroneous(HistogramInVector)
  {
    FirstBadIs([FloatSample(Num(0.0)), HistogramSample], 0);
    FirstBadIs([HistogramSample, FloatSample(Num(0.0))], 0);
  }

  /** A word without spaces is the first token of the texts that are the word, or go on with a space
      after it. */
  lemma FirstTokenIff(text: string, word: string)
    requires ' ' !in word
    ensures FirstToken(text) == word <==> text == word || word + " " <= text
  {
    var token := FirstToken(text);
    if token == word && text != word {
      assert text[..|word| + 1] == word + " ";
    }
    if text == word {
      assert text[..|word|] == word;
      FirstTokenIs(text, |word|);
    } else if word + " " <= text {
      assert text[..|word|] == (word + " ")[..|word|] == word;
      assert text[|word|] == (word + " ")[|word|];
      FirstTokenIs(text, |word|);
    }
  }

  predicate Says(text: string, word: string) {
    text == word || word + " " <= text
  }

  /** Is every number of the value 1.0, or does its text say so? */
  predicate SaysOne(value: Value) {
    match value
    case Scalar(v) => v == Num(1.0)
    case Vector(samples) => forall i :: 0 <= i < |samples| ==> samples[i] == FloatSample(Num(1.0))
    case Matrix(series) =>
      forall k, i :: 0 <= k < |series| && 0 <= i < |series[k].floats| ==> series[k].floats[i] == Num(1.0)
    case Text(text) => Says(text, "1") || Says(text, "1.0")
    case OtherValue => false
  }

  lemma {:induction false} MatrixVerdictIff(series: seq<Series>)
    ensures AllOne(Flatten(series)) <==>
            forall k, i :: 0 <= k < |series| && 0 <= i < |series[k].floats| ==> series[k].floats[i] == Num(1.0)
    decreases |series|
  {
    if series == [] {
    } else {
      var first, rest := series[0].floats, Flatten(series[1..]);
      MatrixVerdictIff(series[1..]);
      assert AllOne(first + rest) <==> AllOne(first) && AllOne(rest) by {
        assert first == (first + rest)[..|first|] && rest == (first + rest)[|first|..];
      }
      assert forall k :: 0 <= k < |series| - 1 ==> series[1..][k] == series[k + 1];
      assert forall k :: 0 < k < |series| ==> series[k] == series[1..][k - 1];
    }
  }

  lemma TextVerdictIff(text: string)
    ensures TextVerdict(text) ==
            if Says(text, "1") || Says(text, "1.0") then Healthy
            else if Says(text, "0") || Says(text, "0.0") then Unhealthy
            else Erroneous(NeitherOneNorZero)
  {
    FirstTokenIff(text, "1");
    FirstTokenIff(text, "1.0");
    FirstTokenIff(text, "0");
    FirstTokenIff(text, "0.0");
  }

  /** For every query result: it is healthy if and only if the query ran and its value says one... */
  lemma HealthyIff(r: QueryResult)
    ensures VerdictOf(r).Healthy? <==> !r.err && SaysOne(r.value)
  {
    match r.value
    case Scalar(_) =>
    case Vector(samples) => VectorVerdictIff(samples);
    case Matrix(series) => MatrixVerdictIff(series);
    case Text(text) => TextVerdictIff(text);
    case OtherValue =>
  }

  /** ...and each error is reported exactly in its own case. */
  lemma ErroneousIff(r: QueryResult)
    ensures VerdictOf(r) == Erroneous(QueryError) <==> r.err
    ensures VerdictOf(r) == Erroneous(HistogramInVector) <==>
            && !r.err && r.value.Vector?
            && exists k ::
                 && 0 <= k < |r.value.samples| && r.value.samples[k] == HistogramSample
                 && forall j :: 0 <= j < k ==> r.value.samples[j] == FloatSample(Num(1.0))
    ensures VerdictOf(r) == Erroneous(NeitherOneNorZero) <==>
            && !r.err && r.value.Text?
            && forall word :: word in ["1", "1.0", "0", "0.0"] ==> !Says(r.value.text, word)
    ensures VerdictOf(r) == Erroneous(UnknownType) <==> !r.err && r.value.OtherValue?
  {
    match r.value
    case Scalar(_) =>
    case Vector(samples) => VectorErrorIff(samples);
    case Matrix(_) =>
    case Text(text) =>
      TextVerdictIff(text);
      var words := ["1", "1.0", "0", "0.0"];
      assert words[0] == "1" && words[1] == "1.0" && words[2] == "0" && words[3] == "0.0";
    case OtherValue =>
  }

  lemma VectorErrorIff(samples: seq<Sample>)
    ensures VectorVerdict(samples) == Erroneous(HistogramInVector) <==>
            exists k ::
              && 0 <= k < |samples| && samples[k] == HistogramSample
              && forall j :: 0 <= j < k ==> samples[j] == FloatSample(Num(1.0))
  {
    VectorVerdictIff(samples);
    if k :|
      && 0 <= k < |samples| && samples[k] == HistogramSample
      && forall j :: 0 <= j < k ==> samples[j] == FloatSample(Num(1.0))
    {
      assert AllFloatsOne(samples[..k]);
    }
    if k :| 0 <= k < |samples| && samples[k].HistogramSample? && AllFloatsOne(samples[..k]) {
      forall j | 0 <= j < k ensures samples[j] == FloatSample(Num(1.0)) {
        assert samples[..k][j] == samples[j];
      }
    }
  }

  /** A matrix is judged by the bag of its floats: regrouping or reordering them across series
      changes nothing. */
  lemma MatrixGroupingIrrelevant(a: seq<Series>, b: seq<Series>)
    requires multiset(Flatten(a)) == multiset(Flatten(b))
    ensures MatrixVerdict(a) == MatrixVerdict(b)
  {
    SameBag(Flatten(a), Flatten(b));
    SameBag(Flatten(b), Flatten(a));
  }

  /** The README promises that a matrix is successful when all its values are 1.0, and a histogram
      is not 1.0. */
  predicate MatrixDocumented(series: seq<Series>) {
    AllOne(Flatten(series)) && forall k :: 0 <= k < |series| ==> series[k].histograms == 0
  }

  /** The code keeps that promise exactly for the matrices that do not hide a histogram among
      floats that are all 1.0. */
  lemma MatrixAsDocumentedIff(series: seq<Series>)
    ensures (MatrixVerdict(series).Healthy? <==> MatrixDocumented(series))
            <==> !(AllOne(Flatten(series)) && exists k :: 0 <= k < |series| && series[k].histograms > 0)
  {
    assert AllOne(Flatten(series)) && !MatrixDocumented(series)
      ==> exists k :: 0 <= k < |series| && series[k].histograms > 0;
  }

  /** One that does: a single series of one 1.0 and one histogram, and one of histograms only. */
  lemma MatrixWithHistogramIsHealthy()
    ensures var mixed, only := [Series([Num(1.0)], 1)], [Series([], 1)];
            && MatrixVerdict(mixed) == Healthy && !MatrixDocumented(mixed)
            && MatrixVerdict(only) == Healthy && !MatrixDocumented(only)
  {
    var mixed, only := [Series([Num(1.0)], 1)], [Series([], 1)];
    assert Flatten(mixed) == [Num(1.0)] + Flatten([]);
    assert mixed[0].histograms == only[0].histograms == 1;
  }

  /** The README promises that a string is successful exactly when it is "1" or "1.0". The code
      keeps that promise exactly for the strings that do not go on with a space after it. */
  lemma TextAsDocumentedIff(text: string)
    ensures (TextVerdict(text).Healthy? <==> text == "1" || text == "1.0")
            <==> !("1 " <= text || "1.0 " <= text)
  {
    TextVerdictIff(text);
  }
}
