/** The model registry and the process-wide inference session.

    A session is built at most once per model: loadModel keeps two
    module-level cells, the session and the model it was built from, and
    runInference runs whatever session is loaded. The network (fetch and the
    body's stream reader) and the inference library (building and running a
    session) are not modelled; their outcomes are parameters. */
module OnnxHelper {
  import opened Wrappers
  import opened Ort

  // ---------------------------------------------------------------------
  // The registry
  // ---------------------------------------------------------------------

  /** Display name, download location of the weights, and the side of the
      square input the model expects. */
  datatype ModelConfig = ModelConfig(name: string, url: string, size: nat)

  /** MODELS, keyed by model identifier. */
  const Models: map<string, ModelConfig> := map[
    "u2netp" := ModelConfig(
      "Fast (u2netp)",
      "https://huggingface.co/robertwt7/bg-remover-models/resolve/main/onnx/u2netp.onnx",
      320),
    "silueta" := ModelConfig(
      "Balanced (silueta)",
      "https://huggingface.co/robertwt7/bg-remover-models/resolve/main/onnx/silueta.onnx",
      320),
    "rmbg_quant" := ModelConfig(
      "Ultra Quant (RMBG)",
      "https://huggingface.co/briaai/RMBG-1.4/resolve/main/onnx/model_quantized.onnx",
      1024),
    "rmbg_fp16" := ModelConfig(
      "Ultra FP16 (RMBG)",
      "https://huggingface.co/briaai/RMBG-1.4/resolve/main/onnx/model_fp16.onnx",
      1024),
    "rmbg_full" := ModelConfig(
      "Ultra Full (RMBG)",
      "https://huggingface.co/briaai/RMBG-1.4/resolve/main/onnx/model.onnx",
      1024)
  ]

  /** The identifiers of the registry's models. */
  type ModelType = s: string | s in Models witness "u2netp"

  /** MODELS[modelType]: the registry is total on ModelType, the two small
      models take 320 × 320 input and the three RMBG models 1024 × 1024. */
  function Config(m: ModelType): (c: ModelConfig)
    ensures c.size > 0
    ensures c.size == 320 <==> m == "u2netp" || m == "silueta"
    ensures c.size == 1024 <==> m in {"rmbg_quant", "rmbg_fp16", "rmbg_full"}
  {
    Models[m]
  }

  /** The registry's domain is exactly the five identifiers. */
  lemma RegistryDomain()
    ensures Models.Keys == {"u2netp", "silueta", "rmbg_quant", "rmbg_fp16", "rmbg_full"}
    ensures |Models| == 5
  {
  }

  // ---------------------------------------------------------------------
  // Downloading the weights
  // ---------------------------------------------------------------------

  /** The response body as its reader delivers it: these chunks, then either
      the end of the stream or a rejected read. */
  datatype Stream = Stream(chunks: seq<seq<int>>, fails: bool)

  /** What fetch resolves with: the Content-Length header as a number (0
      when absent) and the body, which may be missing. */
  datatype Response = Response(contentLength: nat, body: Option<Stream>)

  /** One call of reader.read(). */
  datatype ReadResult = Chunk(value: seq<int>) | Done | Rejected

  /** The read that follows `next` chunks already delivered. */
  function Read(stream: Stream, next: nat): ReadResult {
    if next < |stream.chunks| then Chunk(stream.chunks[next])
    else if stream.fails then Rejected
    else Done
  }

  /** The total length of the chunks, summed in arrival order. */
  function SumLengths(chunks: seq<seq<int>>): nat {
    if chunks == [] then 0
    else SumLengths(chunks[..|chunks| - 1]) + |chunks[|chunks| - 1]|
  }

  /** new Blob(chunks): the chunks joined in order. */
  function Concat(chunks: seq<seq<int>>): seq<int> {
    if chunks == [] then []
    else Concat(chunks[..|chunks| - 1]) + chunks[|chunks| - 1]
  }

  /** The blob holds exactly the bytes counted by receivedLength. */
  lemma {:induction false} ConcatLength(chunks: seq<seq<int>>)
    ensures |Concat(chunks)| == SumLengths(chunks)
  {
    if chunks != [] {
      ConcatLength(chunks[..|chunks| - 1]);
    }
  }

  /** What the modelled code does observably, in order. */
  datatype Effect =
    | Release                                // session.release() is called
    | ReleaseWarning                         // it threw, and the failure was logged
    | Fetch(url: string)                     // fetch(url)
    | Progress(received: nat, total: nat)    // onProgress(received / total)
    | Create(byteCount: nat)                 // InferenceSession.create on that many bytes

  /** The progress reports after each of the chunks. */
  function ProgressReports(chunks: seq<seq<int>>, total: nat): (reports: seq<Effect>)
    ensures |reports| == |chunks|
  {
    seq(|chunks|, j requires 0 <= j < |chunks| => Progress(SumLengths(chunks[..j + 1]), total))
  }

  /** The running total never decreases. */
  lemma {:induction false} PrefixSumMonotone(chunks: seq<seq<int>>, a: nat, b: nat)
    requires a <= b <= |chunks|
    ensures SumLengths(chunks[..a]) <= SumLengths(chunks[..b])
    decreases b
  {
    if a < b {
      PrefixSumMonotone(chunks, a, b - 1);
      assert chunks[..b][..b - 1] == chunks[..b - 1];
    }
  }

  /** The value reported to onProgress. */
  function Fraction(p: Effect): real
    requires p.Progress? && p.total > 0
  {
    p.received as real / p.total as real
  }

  /** Progress reports are non-decreasing, as received byte counts and, when
      the content length is positive, as fractions; the last one counts every
      byte received. */
  lemma ProgressMonotone(chunks: seq<seq<int>>, total: nat, a: nat, b: nat)
    requires a <= b < |chunks|
    ensures ProgressReports(chunks, total)[a].received <= ProgressReports(chunks, total)[b].received
    ensures total > 0 ==> Fraction(ProgressReports(chunks, total)[a]) <= Fraction(ProgressReports(chunks, total)[b])
    ensures ProgressReports(chunks, total)[|chunks| - 1].received == SumLengths(chunks)
  {
    var x, y := SumLengths(chunks[..a + 1]), SumLengths(chunks[..b + 1]);
    ReportAt(chunks, total, a);
    ReportAt(chunks, total, b);
    PrefixSumMonotone(chunks, a + 1, b + 1);
    LastProgressReport(chunks, total);
    if total > 0 {
      DivideMonotone(x, y, total);
    }
  }

  /** Report j counts the bytes of the first j + 1 chunks. */
  lemma ReportAt(chunks: seq<seq<int>>, total: nat, j: nat)
    requires j < |chunks|
    ensures ProgressReports(chunks, total)[j] == Progress(SumLengths(chunks[..j + 1]), total)
  {
  }

  /** The last report counts every byte received. */
  lemma LastProgressReport(chunks: seq<seq<int>>, total: nat)
    requires |chunks| > 0
    ensures ProgressReports(chunks, total)[|chunks| - 1].received == SumLengths(chunks)
  {
    var n := |chunks|;
    assert chunks[..n] == chunks;
    assert ProgressReports(chunks, total)[n - 1] == Progress(SumLengths(chunks[..n]), total);
  }

  lemma DivideMonotone(x: nat, y: nat, t: nat)
    requires x <= y && t > 0
    ensures x as real / t as real <= y as real / t as real
  {
    var xr, yr, tr := x as real, y as real, t as real;
    assert yr / tr - xr / tr == (yr - xr) / tr;
  }

  /** One more chunk adds one more report. */
  lemma ProgressReportsSnoc(chunks: seq<seq<int>>, value: seq<int>, total: nat)
    ensures ProgressReports(chunks + [value], total)
         == ProgressReports(chunks, total) + [Progress(SumLengths(chunks + [value]), total)]
  {
    var c' := chunks + [value];
    forall j | 0 <= j < |chunks|
      ensures ProgressReports(c', total)[j] == ProgressReports(chunks, total)[j]
    {
      assert c'[..j + 1] == chunks[..j + 1];
    }
    assert c'[..|chunks| + 1] == c';
  }

  /** The download loop of loadModel: read until the stream ends, keeping
      each chunk, adding its length to receivedLength and reporting progress
      after it when a callback was given. */
  method Download(stream: Stream, contentLength: nat, reportProgress: bool)
    returns (ok: bool, chunks: seq<seq<int>>, receivedLength: nat, reports: seq<Effect>)
    ensures ok == !stream.fails
    ensures chunks == stream.chunks
    ensures receivedLength == SumLengths(chunks) == |Concat(chunks)|
    ensures reports == if reportProgress then ProgressReports(chunks, contentLength) else []
  {
    receivedLength, chunks, reports := 0, [], [];
    var next := 0;
    while true
      invariant 0 <= next <= |stream.chunks|
      invariant chunks == stream.chunks[..next]
      invariant receivedLength == SumLengths(chunks)
      invariant reports == if reportProgress then ProgressReports(chunks, contentLength) else []
      decreases |stream.chunks| - next
    {
      var read := Read(stream, next);
      if read.Rejected? {
        assert chunks == stream.chunks;
        ConcatLength(chunks);
        return false, chunks, receivedLength, reports;
      }
      if read.Done? {
        break;
      }
      var value := read.value;
      ProgressReportsSnoc(chunks, value, contentLength);
      assert (chunks + [value])[..|chunks|] == chunks;
      chunks := chunks + [value];
      receivedLength := receivedLength + |value|;
      if reportProgress {
        reports := reports + [Progress(receivedLength, contentLength)];
      }
      next := next + 1;
    }
    assert chunks == stream.chunks;
    ConcatLength(chunks);
    ok := true;
  }

  // ---------------------------------------------------------------------
  // The session state machine
  // ---------------------------------------------------------------------

  /** The two module-level cells. */
  datatype State = State(session: Option<Session>, currentModel: Option<ModelType>)

  /** A loaded session always knows its model. */
  predicate Consistent(s: State) {
    s.session.Some? ==> s.currentModel.Some?
  }

  /** loadModel returns at once: a session exists and it is for this model. */
  predicate ShortCircuits(s: State, m: ModelType) {
    s.session.Some? && s.currentModel == Some(m)
  }

  /** Why loadModel rejects. */
  datatype LoadError =
    | FetchFailed     // fetch rejected
    | NoBody          // the response has no body, so `reader!.read()` throws
    | ReadFailed      // a read of the body rejected
    | BuildFailed     // building the session from the bytes failed

  /** The try block of loadModel: the session it built, or why it failed,
      and what it did. */
  datatype Acquired = Acquired(result: Result<Session, LoadError>, effects: seq<Effect>)

  /** The specification of the try block. `fetched` is what fetch resolved
      with (None: it rejected); `create` builds a session from the downloaded
      bytes (None: it failed). */
  function Acquire(url: string, fetched: Option<Response>, create: seq<int> -> Option<Session>,
                   reportProgress: bool): Acquired
  {
    if fetched.None? then Acquired(Failure(FetchFailed), [Fetch(url)])
    else if fetched.value.body.None? then Acquired(Failure(NoBody), [Fetch(url)])
    else
      var stream := fetched.value.body.value;
      var reports := if reportProgress then ProgressReports(stream.chunks, fetched.value.contentLength) else [];
      if stream.fails then Acquired(Failure(ReadFailed), [Fetch(url)] + reports)
      else
        var bytes := Concat(stream.chunks);
        var effects := [Fetch(url)] + reports + [Create(|bytes|)];
        match create(bytes)
        case None => Acquired(Failure(BuildFailed), effects)
        case Some(built) => Acquired(Success(built), effects)
  }

  /** The try block fetches first, and never releases. */
  lemma AcquireEffects(url: string, fetched: Option<Response>, create: seq<int> -> Option<Session>,
                       reportProgress: bool)
    ensures var e := Acquire(url, fetched, create, reportProgress).effects;
      && |e| > 0 && e[0] == Fetch(url)
      && forall j :: 0 <= j < |e| ==> !e[j].Release? && !e[j].ReleaseWarning?
  {
    if fetched.Some? && fetched.value.body.Some? && reportProgress {
      var stream := fetched.value.body.value;
      var reports := ProgressReports(stream.chunks, fetched.value.contentLength);
      assert forall j :: 0 <= j < |reports| ==> reports[j].Progress?;
    }
  }

  /** The try block of loadModel: fetch the model's weights, read the body
      to its end, join the chunks and build a session from them. */
  method FetchSession(url: string, fetched: Option<Response>, create: seq<int> -> Option<Session>,
                      reportProgress: bool)
    returns (built: Result<Session, LoadError>, effects: seq<Effect>)
    ensures Acquired(built, effects) == Acquire(url, fetched, create, reportProgress)
  {
    effects := [Fetch(url)];
    if fetched.None? {
      return Failure(FetchFailed), effects;
    }
    var response := fetched.value;
    if response.body.None? {
      return Failure(NoBody), effects;
    }
    var ok, chunks, receivedLength, reports := Download(response.body.value, response.contentLength, reportProgress);
    effects := effects + reports;
    if !ok {
      return Failure(ReadFailed), effects;
    }
    var arrayBuffer := Concat(chunks);
    effects := effects + [Create(|arrayBuffer|)];
    var session := create(arrayBuffer);
    if session.None? {
      return Failure(BuildFailed), effects;
    }
    built := Success(session.value);
  }

  /** One loadModel call: the new cells, how the call ended, what it did. */
  datatype LoadStep = LoadStep(state: State, outcome: Outcome<LoadError>, effects: seq<Effect>)

  /** What releasing the old session does: nothing when there is none;
      otherwise release is called and, when it throws, a warning is logged. */
  function Released(s: State, releaseThrows: bool): seq<Effect> {
    if s.session.None? then []
    else if releaseThrows then [Release, ReleaseWarning]
    else [Release]
  }

  /** The specification of loadModel; `releaseThrows` says whether releasing
      the old session throws. */
  function Load(s: State, m: ModelType, releaseThrows: bool, fetched: Option<Response>,
                create: seq<int> -> Option<Session>, reportProgress: bool): LoadStep
  {
    if ShortCircuits(s, m) then LoadStep(s, Pass, [])
    else
      var acquired := Acquire(Config(m).url, fetched, create, reportProgress);
      var effects := Released(s, releaseThrows) + acquired.effects;
      match acquired.result
      case Failure(e) => LoadStep(State(None, s.currentModel), Fail(e), effects)
      case Success(built) => LoadStep(State(Some(built), Some(m)), Pass, effects)
  }

  /** Asking again for the loaded model does nothing: no release, no fetch,
      both cells unchanged. */
  lemma LoadShortCircuit(s: State, m: ModelType, releaseThrows: bool, fetched: Option<Response>,
                         create: seq<int> -> Option<Session>, reportProgress: bool)
    requires ShortCircuits(s, m)
    ensures Load(s, m, releaseThrows, fetched, create, reportProgress) == LoadStep(s, Pass, [])
  {
  }

  /** Otherwise loadModel always fetches the model's weights; before that
      it calls release exactly once when a session exists, and never when
      none does. */
  lemma LoadReleasesOnce(s: State, m: ModelType, releaseThrows: bool, fetched: Option<Response>,
                         create: seq<int> -> Option<Session>, reportProgress: bool)
    requires !ShortCircuits(s, m)
    ensures var e := Load(s, m, releaseThrows, fetched, create, reportProgress).effects;
      var f := if s.session.None? then 0 else if releaseThrows then 2 else 1;
      && f < |e| && e[f] == Fetch(Config(m).url)
      && (s.session.Some? ==> e[0] == Release)
      && (forall j :: 0 <= j < |e| && e[j] == Release ==> s.session.Some? && j == 0)
  {
    AcquireEffects(Config(m).url, fetched, create, reportProgress);
  }

  /** A failed release is swallowed: the cells and the outcome are as if it
      had succeeded. */
  lemma ReleaseFailureSwallowed(s: State, m: ModelType, fetched: Option<Response>,
                                create: seq<int> -> Option<Session>, reportProgress: bool)
    ensures Load(s, m, true, fetched, create, reportProgress).state
         == Load(s, m, false, fetched, create, reportProgress).state
    ensures Load(s, m, true, fetched, create, reportProgress).outcome
         == Load(s, m, false, fetched, create, reportProgress).outcome
  {
  }

  /** How a load ends: on success the session is the one built from the
      downloaded bytes and currentModel is the requested model; on failure
      there is no session and currentModel keeps its old value, so the next
      call, for any model, does not short-circuit. */
  lemma LoadOutcomes(s: State, m: ModelType, releaseThrows: bool, fetched: Option<Response>,
                     create: seq<int> -> Option<Session>, reportProgress: bool)
    ensures var step := Load(s, m, releaseThrows, fetched, create, reportProgress);
      && (step.outcome.Pass? ==> step.state.session.Some? && step.state.currentModel == Some(m))
      && (step.outcome.Fail? ==> step.state == State(None, s.currentModel))
      && (step.outcome.Fail? ==> forall m': ModelType :: !ShortCircuits(step.state, m'))
  {
  }

  /** A load succeeds exactly when it short-circuits or every step succeeds,
      and a session it builds comes from all the bytes of the body. */
  lemma LoadSucceedsIff(s: State, m: ModelType, releaseThrows: bool, fetched: Option<Response>,
                        create: seq<int> -> Option<Session>, reportProgress: bool)
    ensures var step := Load(s, m, releaseThrows, fetched, create, reportProgress);
      step.outcome.Pass? <==>
        || ShortCircuits(s, m)
        || (&& fetched.Some? && fetched.value.body.Some?
            && !fetched.value.body.value.fails
            && create(Concat(fetched.value.body.value.chunks)).Some?)
    ensures var step := Load(s, m, releaseThrows, fetched, create, reportProgress);
      step.outcome.Pass? && !ShortCircuits(s, m) ==>
        step.state.session == create(Concat(fetched.value.body.value.chunks))
  {
  }

  /** Every outcome of loadModel keeps the cells consistent. */
  lemma LoadKeepsConsistent(s: State, m: ModelType, releaseThrows: bool, fetched: Option<Response>,
                            create: seq<int> -> Option<Session>, reportProgress: bool)
    requires Consistent(s)
    ensures Consistent(Load(s, m, releaseThrows, fetched, create, reportProgress).state)
  {
  }

  /** Selecting the same model twice in a row builds it once: after a
      successful load, the next load of that model does nothing. */
  lemma LoadTwice(s: State, m: ModelType, releaseThrows: bool, fetched: Option<Response>,
                  create: seq<int> -> Option<Session>, reportProgress: bool,
                  releaseThrows': bool, fetched': Option<Response>,
                  create': seq<int> -> Option<Session>, reportProgress': bool)
    requires Load(s, m, releaseThrows, fetched, create, reportProgress).outcome.Pass?
    ensures var s' := Load(s, m, releaseThrows, fetched, create, reportProgress).state;
      Load(s', m, releaseThrows', fetched', create', reportProgress') == LoadStep(s', Pass, [])
  {
    LoadOutcomes(s, m, releaseThrows, fetched, create, reportProgress);
  }

  /** inputNames[0] or outputNames[0] as a property key: an empty list gives
      undefined, which names the key "undefined". */
  function FirstName(names: seq<string>): string {
    if |names| > 0 then names[0] else "undefined"
  }

  /** Why runInference rejects. */
  datatype InferenceError =
    | ModelNotLoaded    // 'Model not loaded'
    | RunFailed         // session.run rejected

  /** The module-level `session` and `currentModel` cells. */
  class Runtime {
    var session: Option<Session>
    var currentModel: Option<ModelType>

    function Snapshot(): State
      reads this
    {
      State(session, currentModel)
    }

    predicate Valid()
      reads this
    {
      Consistent(Snapshot())
    }

    /** Both cells start out null. */
    constructor ()
      ensures session == None && currentModel == None
      ensures Valid()
    {
      session := None;
      currentModel := None;
    }

    /** loadModel. The new cells, the outcome and the effects are those of
        Load; see the lemmas above for what that means. */
    method LoadModel(modelType: ModelType, releaseThrows: bool, fetched: Option<Response>,
                     create: seq<int> -> Option<Session>, reportProgress: bool)
      returns (outcome: Outcome<LoadError>, effects: seq<Effect>)
      requires Valid()
      modifies this
      ensures Valid()
      ensures LoadStep(Snapshot(), outcome, effects)
           == Load(old(Snapshot()), modelType, releaseThrows, fetched, create, reportProgress)
    {
      ghost var before := Snapshot();
      LoadKeepsConsistent(before, modelType, releaseThrows, fetched, create, reportProgress);
      if session.Some? && currentModel == Some(modelType) {
        return Pass, [];
      }
      effects := [];
      if session.Some? {
        effects := effects + [Release];
        if releaseThrows {
          effects := effects + [ReleaseWarning];
        }
        session := None;
      }
      assert effects == Released(before, releaseThrows);
      var modelConfig := Config(modelType);
      var built, acquireEffects := FetchSession(modelConfig.url, fetched, create, reportProgress);
      effects := effects + acquireEffects;
      if built.Failure? {
        return Fail(built.error), effects;
      }
      session := Some(built.value);
      currentModel := Some(modelType);
      outcome := Pass;
    }

    /** runInference: rejects when no session is loaded; otherwise feeds the
        tensor to the session under its first input name and returns the
        output under its first output name (None: no such output, which the
        source returns as undefined). */
    method RunInference(inputTensor: Tensor, run: (Session, map<string, Tensor>) -> Option<map<string, Tensor>>)
      returns (r: Result<Option<Tensor>, InferenceError>)
      ensures session.None? ==> r == Failure(ModelNotLoaded)
      ensures session.Some? ==>
        var feeds := map[FirstName(session.value.inputNames) := inputTensor];
        var key := FirstName(session.value.outputNames);
        match run(session.value, feeds)
        case None => r == Failure(RunFailed)
        case Some(results) =>
          r.Success? && (r.value.Some? <==> key in results) && (r.value.Some? ==> r.value.value == results[key])
    {
      if session.None? {
        return Failure(ModelNotLoaded);
      }
      var sess := session.value;
      var feeds: map<string, Tensor> := map[];
      feeds := feeds[FirstName(sess.inputNames) := inputTensor];
      var results := run(sess, feeds);
      if results.None? {
        return Failure(RunFailed);
      }
      var output := FirstName(sess.outputNames);
      r := Success(if output in results.value then Some(results.value[output]) else None);
    }
  }

  /** A client: on a fresh runtime, selecting a model a second time after it
      loaded returns at once, with no release, fetch or build. */
  method SelectSameModelTwice(m: ModelType, fetched: Option<Response>, create: seq<int> -> Option<Session>)
    returns (first: Outcome<LoadError>, second: Outcome<LoadError>, secondEffects: seq<Effect>)
    ensures first.Pass? ==> second.Pass? && secondEffects == []
  {
    var rt := new Runtime();
    var e1;
    first, e1 := rt.LoadModel(m, false, fetched, create, true);
    LoadOutcomes(State(None, None), m, false, fetched, create, true);
    second, secondEffects := rt.LoadModel(m, false, fetched, create, true);
  }
}
