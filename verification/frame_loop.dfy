/** The page's frame loop and its two toggles over the module-level `state`
    object of `src/main.js`: the `lastTs` throttle, the retained `lastBox`, the
    unconditional rescheduling, the label shown for a class index, and the
    camera-flip and auto-box handlers. The video, the overlay, the canvas
    drawing and the inference session are outside the model: what the box
    finder returns for this frame and the identifier `requestAnimationFrame`
    hands back are parameters. */
module FrameLoop {
  import opened Common
  import opened Probability
  import opened Preprocess
  import opened Sorting

  /** LOOP_INTERVAL_MS: the least spacing of two processed frames, in milliseconds. */
  const LoopIntervalMs: real := 150.0

  /** What `findTabletBox(...)` did this frame: a box, `null`, or an exception. */
  datatype Finder = Found(box: Box) | NoBox | Throws

  /** What one call of `loop(ts)` did besides rescheduling itself. `drawn` is what
      `drawBox` was given and `crop` what `preprocessToTensor` was given. */
  datatype Frame = Skipped | FinderFailed | Ran(drawn: Option<Box>, crop: Option<Box>)

  /** The fields of `state` that the loop and the handlers update. `rafId` is `None`
      while it is still `null`. */
  datatype Snapshot = Snapshot(lastTs: real, lastBox: Option<Box>, rafId: Option<nat>, usingBack: bool, autoBox: bool)

  /** The initial `state` object. */
  function Initial(): Snapshot
  {
    Snapshot(0.0, None, None, true, true)
  }

  /** `!state.lastTs || ts - state.lastTs >= LOOP_INTERVAL_MS`: 0 is the only falsy timestamp. */
  predicate Due(lastTs: real, ts: real)
  {
    lastTs == 0.0 || ts - lastTs >= LoopIntervalMs
  }

  /** `findTabletBox(...) || state.lastBox`: a missing box keeps the previous one. */
  function Retained(finder: Finder, lastBox: Option<Box>): (b: Option<Box>)
    requires !finder.Throws?
    ensures finder.Found? ==> b == Some(finder.box)
    ensures finder.NoBox? ==> b == lastBox
  {
    if finder.Found? then Some(finder.box) else lastBox
  }

  /** One call of `loop(ts)` on the state `s`: the next state and what the frame did. */
  function Step(s: Snapshot, ts: real, finder: Finder, frameId: nat): (Snapshot, Frame)
  {
    if !Due(s.lastTs, ts) then
      (s.(rafId := Some(frameId)), Skipped)
    else if !s.autoBox then
      (s.(lastTs := ts, rafId := Some(frameId)), Ran(None, None))
    else if finder.Throws? then
      (s.(lastTs := ts, rafId := Some(frameId)), FinderFailed)
    else
      var b := Retained(finder, s.lastBox);
      (s.(lastTs := ts, lastBox := b, rafId := Some(frameId)), Ran(b, b))
  }

  /** A frame is processed exactly when it is due; a processed frame records its timestamp,
      a skipped one changes nothing but `rafId`; every frame reschedules itself. */
  lemma StepThrottle(s: Snapshot, ts: real, finder: Finder, frameId: nat)
    ensures var (t, f) := Step(s, ts, finder, frameId);
      && (f.Skipped? <==> !(s.lastTs == 0.0 || ts - s.lastTs >= 150.0))
      && t.rafId == Some(frameId)
      && (f.Skipped? ==> t == s.(rafId := Some(frameId)))
      && (!f.Skipped? ==> t.lastTs == ts && t.usingBack == s.usingBack && t.autoBox == s.autoBox)
  {
  }

  /** The box step: with `autoBox` on the finder's box replaces `lastBox`, a `null` keeps it,
      and both drawing and preprocessing see the result; with `autoBox` off `lastBox` is left
      alone, nothing is drawn and the whole frame is preprocessed. */
  lemma StepBox(s: Snapshot, ts: real, finder: Finder, frameId: nat)
    requires Due(s.lastTs, ts)
    ensures var (t, f) := Step(s, ts, finder, frameId);
      && (s.autoBox && finder.Found? ==> t.lastBox == Some(finder.box) && f == Ran(t.lastBox, t.lastBox))
      && (s.autoBox && finder.NoBox? ==> t.lastBox == s.lastBox && f == Ran(s.lastBox, s.lastBox))
      && (s.autoBox && finder.Throws? ==> t.lastBox == s.lastBox && f == FinderFailed)
      && (!s.autoBox ==> t.lastBox == s.lastBox && f == Ran(None, None))
  {
  }

  /** A frame processed at time 0 leaves `lastTs` falsy, so the next frame is processed
      whatever its timestamp. */
  lemma ZeroStaysDue(s: Snapshot, finder: Finder, frameId: nat, ts': real)
    requires Due(s.lastTs, 0.0)
    ensures Due(Step(s, 0.0, finder, frameId).0.lastTs, ts')
  {
  }

  /** One requestAnimationFrame callback: its timestamp, the finder's result for that
      frame and the identifier of the next request. */
  datatype Tick = Tick(ts: real, finder: Finder, frameId: nat)

  /** A sequence of callbacks from `s`: the final state and the timestamps of the
      frames that were processed, in order. */
  function Trace(s: Snapshot, ticks: seq<Tick>): (Snapshot, seq<real>)
    decreases |ticks|
  {
    if ticks == [] then (s, [])
    else
      var k := ticks[0];
      var (t, f) := Step(s, k.ts, k.finder, k.frameId);
      var (u, rest) := Trace(t, ticks[1..]);
      (u, if f.Skipped? then rest else [k.ts] + rest)
  }

  /** Neighbours in `xs` are 150 ms apart unless the earlier one is the falsy 0. */
  ghost predicate Spaced(xs: seq<real>)
  {
    forall k :: 0 <= k < |xs| - 1 ==> xs[k] == 0.0 || xs[k + 1] - xs[k] >= LoopIntervalMs
  }

  /** The throttle over any run of callbacks: the processed timestamps, preceded by the
      starting `lastTs`, are spaced by LOOP_INTERVAL_MS, and the final `lastTs` is the last
      processed timestamp (or the starting one when none was). */
  lemma {:induction false} TraceSpaced(s: Snapshot, ticks: seq<Tick>)
    ensures var (u, ps) := Trace(s, ticks);
      Spaced([s.lastTs] + ps) && u.lastTs == ([s.lastTs] + ps)[|ps|]
    decreases |ticks|
  {
    if ticks != [] {
      var k := ticks[0];
      var (t, f) := Step(s, k.ts, k.finder, k.frameId);
      var (u, rest) := Trace(t, ticks[1..]);
      TraceSpaced(t, ticks[1..]);
      if !f.Skipped? {
        var xs := [s.lastTs] + ([k.ts] + rest);
        assert xs == [s.lastTs] + ([t.lastTs] + rest);
        forall j | 0 <= j < |xs| - 1 ensures xs[j] == 0.0 || xs[j + 1] - xs[j] >= LoopIntervalMs {
          if j > 0 {
            assert xs[j] == ([t.lastTs] + rest)[j - 1] && xs[j + 1] == ([t.lastTs] + rest)[j];
          }
        }
      } else {
        assert [s.lastTs] + rest == [t.lastTs] + rest;
      }
    }
  }

  /** Once a box has been found it is never lost again: no frame sets `lastBox` back to `null`. */
  lemma {:induction false} TraceKeepsBox(s: Snapshot, ticks: seq<Tick>)
    requires s.lastBox.Some?
    ensures Trace(s, ticks).0.lastBox.Some?
    decreases |ticks|
  {
    if ticks != [] {
      var k := ticks[0];
      var t := Step(s, k.ts, k.finder, k.frameId).0;
      assert t.lastBox.Some?;
      TraceKeepsBox(t, ticks[1..]);
    }
  }

  /** The camera-flip handler on the snapshot: `usingBack` is negated and nothing else moves. */
  function Flipped(s: Snapshot): (t: Snapshot)
    ensures t.usingBack != s.usingBack
    ensures t.(usingBack := s.usingBack) == s
  {
    s.(usingBack := !s.usingBack)
  }

  /** The label shown for class `idx`: `mapping[String(idx)] ?? 'class_' + idx`. */
  function LabelOf(mapping: map<string, string>, idx: nat): (name: string)
    ensures NatToString(idx) in mapping ==> name == mapping[NatToString(idx)]
    ensures NatToString(idx) !in mapping ==> name == Placeholder(idx)
  {
    if NatToString(idx) in mapping then mapping[NatToString(idx)] else Placeholder(idx)
  }

  /** Two classes the mapping does not name are never shown under the same label. */
  lemma FallbackLabelsDistinct(mapping: map<string, string>, i: nat, j: nat)
    requires NatToString(i) !in mapping && NatToString(j) !in mapping
    requires LabelOf(mapping, i) == LabelOf(mapping, j)
    ensures i == j
  {
    PlaceholderInjective(i, j);
  }

  /** The name shown when `top1Idx` is `undefined`: `mapping['undefined'] ?? 'class_undefined'`. */
  function UndefinedLabel(mapping: map<string, string>): (name: string)
    ensures "undefined" in mapping ==> name == mapping["undefined"]
    ensures "undefined" !in mapping ==> name == "class_undefined"
  {
    if "undefined" in mapping then mapping["undefined"] else "class_undefined"
  }

  /** The result line and the top-3 pills of one inference. `top1` is `None` when
      `top1Idx` and `top1Prob` are `undefined`: the page then reads "#undefined" and "NaN%". */
  datatype Shown = Shown(name: string, top1: Option<Entry>, pills: seq<(string, real)>)

  /** The inference callback: `topkSoftmax(logits, 3)`, then the name of the best class and
      one pill per ranked entry. Empty logits leave `top1Idx` and `top1Prob` undefined, and
      formatting them does not throw: the name is looked up under "undefined" and no pill
      is drawn. */
  method ShowResult(mapping: map<string, string>, logits: seq<real>, exp: real -> real) returns (r: Shown)
    requires PositiveExp(exp)
    ensures r.top1.None? <==> |logits| == 0
    ensures r.top1.None? ==> r.name == UndefinedLabel(mapping) && r.pills == []
    ensures r.top1.Some? ==>
      var p := Softmax(logits, exp);
      var best := r.top1.value;
      && |Ranking(p)| == |logits|
      && best.idx < |logits|
      && r.name == LabelOf(mapping, best.idx)
      && best.prob == p[best.idx]
      && (forall j :: 0 <= j < |logits| ==> p[j] <= best.prob)
      && (forall j :: 0 <= j < best.idx ==> p[j] < best.prob)
      && |r.pills| == Min(3, |logits|)
      && (forall j :: 0 <= j < |r.pills| ==>
            var e := EntryOf(p, Ranking(p)[j]);
            r.pills[j] == (LabelOf(mapping, e.idx), e.prob))
  {
    var top := TopkSoftmax(logits, 3, exp);
    if top.top1.None? {
      return Shown(UndefinedLabel(mapping), None, []);
    }
    var best := top.top1.value;
    var pills := seq(|top.top3|, j requires 0 <= j < |top.top3| => (LabelOf(mapping, top.top3[j].idx), top.top3[j].prob));
    r := Shown(LabelOf(mapping, best.idx), Some(best), pills);
  }

  /** The fields of the page's `state` object that the loop and the handlers change. */
  class AppState {
    var lastTs: real
    var lastBox: Option<Box>
    var rafId: Option<nat>
    var usingBack: bool
    var autoBox: bool

    function Snap(): Snapshot
      reads this
    {
      Snapshot(lastTs, lastBox, rafId, usingBack, autoBox)
    }

    /** `let state = {...}`: no timestamp yet, no box, back camera, auto-box on. */
    constructor ()
      ensures Snap() == Initial()
    {
      lastTs, lastBox, rafId, usingBack, autoBox := 0.0, None, None, true, true;
    }

    /** `loop(ts)`: throttle, box step, preprocessing, then `requestAnimationFrame(loop)`
        in every case, the try/catch keeping an exception from skipping it. */
    method Loop(ts: real, finder: Finder, frameId: nat) returns (f: Frame)
      modifies this
      ensures (Snap(), f) == Step(old(Snap()), ts, finder, frameId)
    {
      if lastTs == 0.0 || ts - lastTs >= LoopIntervalMs {
        lastTs := ts;
        if autoBox {
          if finder.Throws? {
            f := FinderFailed;
          } else {
            lastBox := if finder.Found? then Some(finder.box) else lastBox;
            f := Ran(lastBox, lastBox);
          }
        } else {
          f := Ran(None, None);
        }
      } else {
        f := Skipped;
      }
      rafId := Some(frameId);
    }

    /** `onFlipClick`: toggles the camera and, when a stream is live, restarts it facing the
        new way (returned); otherwise nothing is restarted. */
    method OnFlipClick(hasStream: bool) returns (restart: Option<bool>)
      modifies this
      ensures Snap() == Flipped(old(Snap()))
      ensures restart == if hasStream then Some(usingBack) else None
    {
      usingBack := !usingBack;
      restart := if hasStream then Some(usingBack) else None;
    }

    /** The auto-box checkbox: `autoBox` follows it, and unchecking clears the overlay. */
    method OnAutoBoxChange(checked: bool) returns (clearOverlay: bool)
      modifies this
      ensures Snap() == old(Snap()).(autoBox := checked)
      ensures clearOverlay == !checked
    {
      autoBox := checked;
      clearOverlay := !checked;
    }
  }
}
