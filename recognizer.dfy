/**
 * The per-frame pipeline (`EduMoodRecognizer`): every frame is counted and
 * mirrored; only every N-th frame is analysed, and the frames in between are
 * answered from the cache of the last annotated frame (or, before any
 * analysis, with the mirrored frame itself). An analysed frame appends one
 * latency sample, stamps the session end, refreshes the cache and, when any
 * label was collected, appends one normalised record to the session ledger.
 *
 * Frames are values of a type parameter F. Mirroring (`flip`) and drawing a
 * labelled box (`draw`) are parameters of the recognizer. The clock and the
 * latency measurement are inputs of each call: the latency of the analysis
 * in whole milliseconds, the clock reading stored as the session end, and
 * the timestamp written into the record, all in whole units.
 */
module Recognizer {
  import opened Wrappers
  import opened Emotions
  import opened SessionStats
  import opened FaceAnalysis
  import opened Latency

  /** The sampling interval: any integer but zero, which the source cannot
      divide by. A negative interval selects the same frames as its absolute
      value. */
  type NonZero = n: int | n != 0 witness 1

  function Abs(n: int): nat
  {
    if n < 0 then -n else n
  }

  /** Frame number `count` (counted from 1) is analysed exactly when the
      interval divides it. */
  predicate IsAnalysisFrame(count: nat, n: NonZero)
  {
    count % n == 0
  }

  /** The fixed parts of a recognizer. */
  datatype Config<!F> = Config(analyzeEveryN: NonZero, flip: F -> F, draw: (F, Region, string) -> F)

  /** The recognizer's state: the frames seen, the cached annotated frame,
      the latency ledger, the session end, and the session ledger it feeds. */
  datatype RecognizerState<F> = RecognizerState(
    frameCount: nat,
    lastAnnotated: Option<F>,
    latencies: seq<nat>,
    sessionEnd: Option<nat>,
    records: seq<EmotionRecord>)

  /** One call's inputs: the incoming frame, the faces found on it with the
      classifier's answers, and the readings of the clock and latency timer
      that the call takes if it analyses the frame. */
  datatype FrameInput<F> = FrameInput(frame: F, faces: seq<Face>, latencyMs: nat, analysedAt: nat, recordedAt: nat)

  /** A freshly constructed recognizer over a ledger holding `records`. */
  function Fresh<F>(records: seq<EmotionRecord>): RecognizerState<F>
  {
    RecognizerState(0, None, [], None, records)
  }

  /** The frame answered without analysis: the cached annotated frame, or the
      mirrored frame when nothing has been analysed yet. */
  function Cached<F>(s: RecognizerState<F>, img: F): F
  {
    if s.lastAnnotated.None? then img else s.lastAnnotated.value
  }

  /** The record an analysed frame contributes: none when no label was
      collected, otherwise the labels' normalised counts. */
  function NewRecords(labels: seq<string>, recordedAt: nat): seq<EmotionRecord>
  {
    if labels == [] then [] else [EmotionRecord(recordedAt, Normalize(labels))]
  }

  /** One call of `recognize`: the new state and the returned frame. */
  function Step<F>(c: Config<F>, s: RecognizerState<F>, inp: FrameInput<F>): (RecognizerState<F>, F)
  {
    var count := s.frameCount + 1;
    var img := c.flip(inp.frame);
    if !IsAnalysisFrame(count, c.analyzeEveryN) then
      (s.(frameCount := count), Cached(s, img))
    else
      var annotated := Annotate(c.draw, img, inp.faces);
      var s' := RecognizerState(
        count,
        Some(annotated),
        s.latencies + [inp.latencyMs],
        Some(inp.analysedAt),
        s.records + NewRecords(Labels(inp.faces), inp.recordedAt));
      (s', annotated)
  }

  /** A sequence of calls: the final state and the returned frames in order. */
  function Run<F>(c: Config<F>, s: RecognizerState<F>, ins: seq<FrameInput<F>>): (RecognizerState<F>, seq<F>)
  {
    if ins == [] then (s, [])
    else
      var before := Run(c, s, ins[..|ins| - 1]);
      var after := Step(c, before.0, ins[|ins| - 1]);
      (after.0, before.1 + [after.1])
  }

  // ---------------------------------------------------------------------
  // Division facts for counting the analysed frames

  lemma DivUnique(k: int, m: int, q: int, r: int)
    requires m > 0 && k == q * m + r && 0 <= r < m
    ensures k / m == q && k % m == r
  {
    var q0, r0 := k / m, k % m;
    if q0 > q {
      MulSub(q0, q, m);
      MulAtLeast(q0 - q, m);
    } else if q0 < q {
      MulSub(q, q0, m);
      MulAtLeast(q - q0, m);
    }
  }

  lemma MulSub(a: int, b: int, m: int)
    ensures (a - b) * m == a * m - b * m
  {
  }

  lemma MulAtLeast(a: int, m: int)
    requires a >= 1 && m > 0
    ensures a * m >= m
  {
  }

  /** Frame number k + 1 adds one to k / m exactly when m divides k + 1. */
  lemma DivStep(k: nat, m: nat)
    requires m > 0
    ensures (k + 1) / m == k / m + Indicator((k + 1) % m == 0)
  {
    var q, r := k / m, k % m;
    if r + 1 == m {
      DivUnique(k + 1, m, q + 1, 0);
    } else {
      DivUnique(k + 1, m, q, r + 1);
    }
  }

  /** The sign of the interval does not matter. */
  lemma AnalysisFrameByAbs(count: nat, n: NonZero)
    ensures IsAnalysisFrame(count, n) <==> count % Abs(n) == 0
  {
    if n < 0 {
      var m := Abs(n);
      DivUnique(count, m, -(count / n), count % n);
    }
  }

  // ---------------------------------------------------------------------
  // Properties of one call

  /** Every call counts the frame; an analysed frame appends exactly one
      latency sample and at most one record, both ledgers keep every earlier
      entry, and a record is appended exactly when the frame was analysed
      and some label was collected. */
  lemma StepLedgers<F>(c: Config<F>, s: RecognizerState<F>, inp: FrameInput<F>)
    ensures var s' := Step(c, s, inp).0;
      var analysed := IsAnalysisFrame(s.frameCount + 1, c.analyzeEveryN);
      && s'.frameCount == s.frameCount + 1
      && s.latencies <= s'.latencies
      && |s'.latencies| == |s.latencies| + Indicator(analysed)
      && s.records <= s'.records
      && |s'.records| == |s.records| + Indicator(analysed && Labels(inp.faces) != [])
  {
  }

  /** An analysed frame is returned and becomes the cache, its latency is the
      ledger's last sample and its clock reading the session end; any other
      frame leaves everything but the count as it was. */
  lemma StepCaches<F>(c: Config<F>, s: RecognizerState<F>, inp: FrameInput<F>)
    ensures var (s', out) := Step(c, s, inp);
      if IsAnalysisFrame(s.frameCount + 1, c.analyzeEveryN) then
        && s'.lastAnnotated == Some(out)
        && out == Annotate(c.draw, c.flip(inp.frame), inp.faces)
        && s'.latencies[|s'.latencies| - 1] == inp.latencyMs
        && s'.sessionEnd == Some(inp.analysedAt)
      else
        && s' == s.(frameCount := s.frameCount + 1)
        && out == Cached(s, c.flip(inp.frame))
  {
  }

  /** A call appends a record exactly when it analyses a frame with at least
      one label (`StepLedgers`): then it appends exactly one record, carrying
      the call's timestamp and the normalised labels of no more labels than
      faces; its counts add up to at most the number of labels, and to
      exactly that number when every label names a known category. */
  lemma StepRecord<F>(c: Config<F>, s: RecognizerState<F>, inp: FrameInput<F>)
    requires IsAnalysisFrame(s.frameCount + 1, c.analyzeEveryN) && Labels(inp.faces) != []
    ensures var labels := Labels(inp.faces);
      && Step(c, s, inp).0.records == s.records + [EmotionRecord(inp.recordedAt, Normalize(labels))]
      && 0 < |labels| <= |inp.faces|
      && Total(Normalize(labels)) <= |labels|
      && (Total(Normalize(labels)) == |labels| <==> AllKnown(labels))
  {
    var labels := Labels(inp.faces);
    NewRecordCounts(labels, inp.recordedAt);
    StepAppends(c, s, inp);
    LabelsBound(inp.faces);
  }

  /** What an analysed frame appends to the records. */
  lemma StepAppends<F>(c: Config<F>, s: RecognizerState<F>, inp: FrameInput<F>)
    requires IsAnalysisFrame(s.frameCount + 1, c.analyzeEveryN)
    ensures Step(c, s, inp).0.records == s.records + NewRecords(Labels(inp.faces), inp.recordedAt)
  {
  }

  /** The record of a non-empty label list, and what its counts add up to. */
  lemma NewRecordCounts(labels: seq<string>, recordedAt: nat)
    requires labels != []
    ensures var recs := NewRecords(labels, recordedAt);
      && recs == [EmotionRecord(recordedAt, Normalize(labels))]
      && Total(recs[0].counts) <= |labels|
      && (Total(recs[0].counts) == |labels| <==> AllKnown(labels))
  {
    NormalizeTotalBound(labels);
  }

  // ---------------------------------------------------------------------
  // Properties of a sequence of calls

  /** One returned frame per call, and every call counted. */
  lemma {:induction false} RunCounts<F>(c: Config<F>, s: RecognizerState<F>, ins: seq<FrameInput<F>>)
    ensures Run(c, s, ins).0.frameCount == s.frameCount + |ins|
    ensures |Run(c, s, ins).1| == |ins|
  {
    if ins != [] {
      RunCounts(c, s, ins[..|ins| - 1]);
    }
  }

  /** Over frames k+1 .. k+L exactly (k+L)/|N| - k/|N| are analysed, one
      latency sample each. */
  lemma {:induction false} RunAnalyses<F>(c: Config<F>, s: RecognizerState<F>, ins: seq<FrameInput<F>>)
    ensures var m := Abs(c.analyzeEveryN);
      |Run(c, s, ins).0.latencies| == |s.latencies| + (s.frameCount + |ins|) / m - s.frameCount / m
  {
    if ins != [] {
      var init := ins[..|ins| - 1];
      var m := Abs(c.analyzeEveryN);
      var k := s.frameCount + |init|;
      var mid := Run(c, s, init).0;
      var grew := Indicator(IsAnalysisFrame(k + 1, c.analyzeEveryN));
      assert |Run(c, s, ins).0.latencies| == |mid.latencies| + grew by {
        RunCounts(c, s, init);
        StepLedgers(c, mid, ins[|ins| - 1]);
      }
      assert grew == (k + 1) / m - k / m by {
        AnalysisCountStep(k, c.analyzeEveryN);
      }
      RunAnalyses(c, s, init);
    }
  }

  lemma AnalysisCountStep(k: nat, n: NonZero)
    ensures Indicator(IsAnalysisFrame(k + 1, n)) == (k + 1) / Abs(n) - k / Abs(n)
  {
    AnalysisFrameByAbs(k + 1, n);
    DivStep(k, Abs(n));
  }

  /** Both ledgers only grow at the end, and the session ledger never gains
      more records than the latency ledger gains samples. */
  lemma {:induction false} RunLedgersGrow<F>(c: Config<F>, s: RecognizerState<F>, ins: seq<FrameInput<F>>)
    ensures var s' := Run(c, s, ins).0;
      && s.latencies <= s'.latencies
      && s.records <= s'.records
      && |s'.records| - |s.records| <= |s'.latencies| - |s.latencies|
  {
    if ins != [] {
      var init := ins[..|ins| - 1];
      RunLedgersGrow(c, s, init);
      StepLedgers(c, Run(c, s, init).0, ins[|ins| - 1]);
    }
  }

  /** The cache, like the session end, is empty after a run exactly when it
      was empty before and no frame of the run was analysed. */
  lemma {:induction false} RunCache<F>(c: Config<F>, s: RecognizerState<F>, ins: seq<FrameInput<F>>)
    ensures var s' := Run(c, s, ins).0;
      var analysed := |s'.latencies| > |s.latencies|;
      && (s'.lastAnnotated.Some? <==> s.lastAnnotated.Some? || analysed)
      && (s'.sessionEnd.Some? <==> s.sessionEnd.Some? || analysed)
  {
    if ins != [] {
      var init := ins[..|ins| - 1];
      RunCache(c, s, init);
      RunLedgersGrow(c, s, init);
      StepLedgers(c, Run(c, s, init).0, ins[|ins| - 1]);
    }
  }

  /** While no frame is due for analysis, calls change nothing but the frame
      count, and each returns the cached frame, or its own mirrored frame
      while nothing has been analysed. */
  lemma {:induction false} RunWithoutAnalysis<F>(c: Config<F>, s: RecognizerState<F>, ins: seq<FrameInput<F>>)
    requires forall k :: s.frameCount < k <= s.frameCount + |ins| ==> !IsAnalysisFrame(k, c.analyzeEveryN)
    ensures Run(c, s, ins).0 == s.(frameCount := s.frameCount + |ins|)
    ensures |Run(c, s, ins).1| == |ins|
    ensures forall i :: 0 <= i < |ins| ==> Run(c, s, ins).1[i] == Cached(s, c.flip(ins[i].frame))
  {
    if ins != [] {
      var init, last := ins[..|ins| - 1], ins[|ins| - 1];
      RunWithoutAnalysis(c, s, init);
      var before := Run(c, s, init);
      assert !IsAnalysisFrame(s.frameCount + |ins|, c.analyzeEveryN);
      var outs := before.1 + [Cached(s, c.flip(last.frame))];
      assert Run(c, s, ins).1 == outs;
      forall i | 0 <= i < |ins|
        ensures outs[i] == Cached(s, c.flip(ins[i].frame))
      {
        if i < |init| {
          assert init[i] == ins[i];
        }
      }
    }
  }

  /** A fresh recognizer analyses floor(L / |N|) of its first L frames, and
      before the first analysis it returns each frame mirrored. */
  lemma FreshRun<F>(c: Config<F>, records: seq<EmotionRecord>, ins: seq<FrameInput<F>>)
    ensures |Run(c, Fresh(records), ins).0.latencies| == |ins| / Abs(c.analyzeEveryN)
    ensures |Run(c, Fresh(records), ins).1| == |ins|
    ensures |ins| < Abs(c.analyzeEveryN) ==>
              forall i :: 0 <= i < |ins| ==> Run(c, Fresh(records), ins).1[i] == c.flip(ins[i].frame)
  {
    var s: RecognizerState<F> := Fresh(records);
    var m := Abs(c.analyzeEveryN);
    RunAnalyses(c, s, ins);
    RunCounts(c, s, ins);
    DivUnique(0, m, 0, 0);
    if |ins| < m {
      forall k | 0 < k <= |ins|
        ensures !IsAnalysisFrame(k, c.analyzeEveryN)
      {
        DivUnique(k, m, 0, k);
        AnalysisFrameByAbs(k, c.analyzeEveryN);
      }
      RunWithoutAnalysis(c, s, ins);
    }
  }

  /** Started fresh, the recognizer has a session end exactly when it has
      latency samples, so the summary never takes the end from its own
      clock reading. */
  lemma FreshSessionEnd<F>(c: Config<F>, records: seq<EmotionRecord>, ins: seq<FrameInput<F>>)
    ensures Run(c, Fresh(records), ins).0.sessionEnd.Some? <==> Run(c, Fresh(records), ins).0.latencies != []
  {
    RunCache(c, Fresh(records), ins);
  }

  // ---------------------------------------------------------------------
  // The recognizer object

  /** What the latency summary reports: the ledger's statistics and the
      session's duration, from its start to its recorded end. */
  datatype LatencyReport = LatencyReport(stats: LatencyStats, durationSeconds: int)

  class EduMoodRecognizer<F> {
    const sessionStats: EduMoodSessionStats
    const analyzeEveryN: NonZero
    const flip: F -> F
    const draw: (F, Region, string) -> F
    const sessionStart: nat
    var frameCount: nat
    var lastAnnotated: Option<F>
    var latencyRecords: seq<nat>
    var sessionEnd: Option<nat>

    function Settings(): Config<F>
    {
      Config(analyzeEveryN, flip, draw)
    }

    /** The object's state together with the ledger it feeds. */
    ghost function State(): RecognizerState<F>
      reads this, sessionStats
    {
      RecognizerState(frameCount, lastAnnotated, latencyRecords, sessionEnd, sessionStats.records)
    }

    /** A new recognizer over the given ledger, started at `startedAt`, with
        the source's default interval of five frames. */
    constructor (stats: EduMoodSessionStats, flip: F -> F, draw: (F, Region, string) -> F,
                 startedAt: nat, analyzeEveryN: NonZero := 5)
      ensures sessionStats == stats && this.analyzeEveryN == analyzeEveryN
      ensures this.flip == flip && this.draw == draw && sessionStart == startedAt
      ensures State() == Fresh(stats.records)
    {
      sessionStats := stats;
      this.analyzeEveryN := analyzeEveryN;
      this.flip := flip;
      this.draw := draw;
      sessionStart := startedAt;
      frameCount := 0;
      lastAnnotated := None;
      latencyRecords := [];
      sessionEnd := None;
    }

    /** Draws every face whose classification succeeded and collects the
        non-empty labels, in face order; a failing face is skipped. */
    method AnalyzeFrame(img: F, faces: seq<Face>) returns (annotated: F, emotions: seq<string>)
      ensures annotated == Annotate(draw, img, faces)
      ensures emotions == Labels(faces)
    {
      annotated := img;
      emotions := [];
      var i := 0;
      while i < |faces|
        invariant 0 <= i <= |faces|
        invariant annotated == Annotate(draw, img, faces[..i])
        invariant emotions == Labels(faces[..i])
      {
        assert faces[..i + 1][..i] == faces[..i];
        var face := faces[i];
        var result := face.analysis;
        if result.Raised? || (result.AsList? && result.items == []) {
          i := i + 1;
          continue;
        }
        var dom := if result.AsList? then Lower(DominantOf(result.items[0])) else Lower(DominantOf(result.fields));
        if dom != "" {
          emotions := emotions + [dom];
        }
        annotated := draw(annotated, face.region, dom);
        i := i + 1;
      }
      assert faces[..i] == faces;
    }

    /** Handles one frame as the pipeline does: the new state and the
        returned frame are those of one `Step`. */
    method Recognize(frame: F, faces: seq<Face>, latencyMs: nat, analysedAt: nat, recordedAt: nat) returns (out: F)
      modifies this, sessionStats
      ensures (State(), out) == Step(Settings(), old(State()), FrameInput(frame, faces, latencyMs, analysedAt, recordedAt))
    {
      frameCount := frameCount + 1;
      var img := flip(frame);
      if frameCount % analyzeEveryN != 0 {
        if lastAnnotated.None? {
          return img;
        }
        return lastAnnotated.value;
      }
      var annotated, emotions := AnalyzeFrame(img, faces);
      latencyRecords := latencyRecords + [latencyMs];
      sessionEnd := Some(analysedAt);
      lastAnnotated := Some(annotated);
      if emotions != [] {
        var counts := multiset(Lowered(emotions));
        sessionStats.AddRecord(EmotionRecord(recordedAt, FromCounter(counts)));
      } else {
        assert old(sessionStats.records) + [] == old(sessionStats.records);
      }
      return annotated;
    }

    /** The end-of-stream summary: nothing without samples; otherwise the
        statistics of the latency ledger and the session duration, where the
        session end is taken from the clock only if no frame stamped it. */
    method PrintLatencySummary(now: nat) returns (report: Option<LatencyReport>)
      modifies this`sessionEnd
      ensures old(latencyRecords) == [] ==> report == None && sessionEnd == old(sessionEnd)
      ensures old(latencyRecords) != [] ==>
                && sessionEnd == (if old(sessionEnd).None? then Some(now) else old(sessionEnd))
                && report == Some(LatencyReport(Summarize(latencyRecords).value, sessionEnd.value - sessionStart))
    {
      if latencyRecords == [] {
        return None;
      }
      var stats := Summarize(latencyRecords).value;
      if sessionEnd.None? {
        sessionEnd := Some(now);
      }
      return Some(LatencyReport(stats, sessionEnd.value - sessionStart));
    }
  }
}
