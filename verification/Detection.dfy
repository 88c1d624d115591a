/** Capability detection: how two probes and the remembered capability classify a model. */
module Detection {
  import opened Basics
  import opened Lifecycle

  /** The parts of llm.RunResult that detection looks at; summary is the text built for a failure. */
  datatype ProbeResult = ProbeResult(ok: bool, statusCode: int, error: string, dimensions: Option<int>, summary: string)

  datatype Detected = Detected(capability: Capability, skipReason: string)

  const TRANSIENT_HINTS: seq<string> := [
    "all models exhausted", "bad gateway", "backend error", "connection refused", "connection reset",
    "context deadline", "eof", "gateway", "no such host", "proxy", "upstream", "rate limit",
    "rate-limited", "timeout", "temporarily unavailable"
  ]

  /** strings.ToLower on ASCII letters */
  function Lower(s: string): string {
    seq(|s|, i requires 0 <= i < |s| => if 'A' <= s[i] <= 'Z' then s[i] - 'A' + 'a' else s[i])
  }

  predicate OccursAt(text: string, part: string, i: nat) {
    i + |part| <= |text| && text[i..i + |part|] == part
  }

  predicate HasHint(error: string, hints: seq<string>) {
    exists k, i :: 0 <= k < |hints| && 0 <= i <= |error| && OccursAt(Lower(error), hints[k], i)
  }

  /** isTransientProbeFailure */
  predicate Transient(r: ProbeResult) {
    !r.ok && (r.statusCode == 429 || r.statusCode >= 500 || HasHint(r.error, TRANSIENT_HINTS))
  }

  const UNAVAILABLE_HINTS: seq<string> := [
    "model_not_found", "model not found", "model does not exist", "model no longer exists",
    "model is not available", "model unavailable", "no such model", "unknown model"
  ]

  /** hasModelUnavailableHint */
  predicate UnavailableHint(error: string) {
    !HasHint(error, ["temporarily unavailable"]) && HasHint(error, UNAVAILABLE_HINTS)
  }

  /** isModelUnavailableResult */
  predicate Unavailable(r: ProbeResult) {
    !r.ok && (r.statusCode == 404 || r.statusCode == 410
              || (r.statusCode in {400, 422, 503} && UnavailableHint(r.error)))
  }

  /** detectChatFirstCapability: chat wins, then embedding with a vector, then the failure is weighed. */
  function Detect(chat: ProbeResult, embedding: ProbeResult): Detected {
    if chat.ok then Detected(Chat, "")
    else if embedding.ok && embedding.dimensions.Some? && embedding.dimensions.value > 0 then Detected(Embedding, "")
    else if Transient(chat) then
      Detected(Unknown, "chat capability probe temporarily unavailable: " + chat.summary)
    else if Transient(embedding) then
      Detected(Unknown, "embedding capability probe temporarily unavailable: " + embedding.summary)
    else Detected(Skip, "embedding and chat capability probes failed")
  }

  /** preservedRunnableCapability */
  function Preserved(d: Detected, known: Option<Capability>): Option<Capability> {
    if d.capability == Unknown && known.Some? && known.value.Runnable() then known else None
  }

  /** What detectModels stores for a model whose probes ran. */
  function Classify(id: string, d: Detected, known: Option<Capability>): ObservedModel {
    var preserved := Preserved(d, known);
    if preserved.Some? then ObservedModel(id, preserved.value, false, "")
    else ObservedModel(id, d.capability, false, d.skipReason)
  }

  /** What detectModels stores for a model whose probes never started. */
  function Cancelled(id: string): ObservedModel {
    ObservedModel(id, Skip, false, "context canceled before capability probes")
  }

  // ----- what the outcomes mean -----

  /** The text shows the part somewhere, in letters of either case. */
  predicate Says(error: string, part: string) {
    exists i :: 0 <= i <= |error| - |part| && SaysAt(error, part, i)
  }

  predicate SaysAt(error: string, part: string, i: nat)
    requires i + |part| <= |error|
  {
    forall k :: 0 <= k < |part| ==>
      part[k] == if 'A' <= error[i + k] <= 'Z' then error[i + k] - 'A' + 'a' else error[i + k]
  }

  predicate SaysTransient(error: string) {
    || Says(error, "all models exhausted")
    || Says(error, "bad gateway")
    || Says(error, "backend error")
    || Says(error, "connection refused")
    || Says(error, "connection reset")
    || Says(error, "context deadline")
    || Says(error, "eof")
    || Says(error, "gateway")
    || Says(error, "no such host")
    || Says(error, "proxy")
    || Says(error, "upstream")
    || Says(error, "rate limit")
    || Says(error, "rate-limited")
    || Says(error, "timeout")
    || Says(error, "temporarily unavailable")
  }

  predicate SaysGone(error: string) {
    && !Says(error, "temporarily unavailable")
    && (
      || Says(error, "model_not_found")
      || Says(error, "model not found")
      || Says(error, "model does not exist")
      || Says(error, "model no longer exists")
      || Says(error, "model is not available")
      || Says(error, "model unavailable")
      || Says(error, "no such model")
      || Says(error, "unknown model")
    )
  }

  /** The probe failed in a way that may pass. */
  predicate FailedForNow(r: ProbeResult) {
    !r.ok && (r.statusCode == 429 || r.statusCode >= 500 || SaysTransient(r.error))
  }

  /** The answer says that the model does not exist. */
  predicate SaysModelGone(r: ProbeResult) {
    !r.ok && (r.statusCode in {404, 410} || (r.statusCode in {400, 422, 503} && SaysGone(r.error)))
  }

  /** The capability two probes and the remembered capability establish. */
  predicate DetectedAs(chat: ProbeResult, embedding: ProbeResult, known: Option<Capability>,
                       capability: Capability, excluded: bool, skipReason: string)
  {
    var embeds := embedding.ok && embedding.dimensions.Some? && embedding.dimensions.value > 0;
    && !excluded
    && (chat.ok ==> capability == Chat && skipReason == "")
    && (!chat.ok && embeds ==> capability == Embedding && skipReason == "")
    && (!chat.ok && !embeds && (FailedForNow(chat) || FailedForNow(embedding)) ==>
          if known == Some(Chat) || known == Some(Embedding) then capability == known.value && skipReason == ""
          else capability == Unknown && skipReason != "")
    && (!chat.ok && !embeds && !FailedForNow(chat) && !FailedForNow(embedding) ==>
          capability == Skip && skipReason == "embedding and chat capability probes failed")
  }

  lemma {:induction false} OccursMeans(error: string, part: string, i: nat)
    ensures OccursAt(Lower(error), part, i) <==> i + |part| <= |error| && SaysAt(error, part, i)
  {
    if i + |part| <= |error| {
      var shown := Lower(error)[i..i + |part|];
      assert forall k :: 0 <= k < |part| ==>
        shown[k] == if 'A' <= error[i + k] <= 'Z' then error[i + k] - 'A' + 'a' else error[i + k];
    }
  }

  lemma {:induction false} HintMeans(error: string, hints: seq<string>)
    ensures HasHint(error, hints) <==> exists k :: 0 <= k < |hints| && Says(error, hints[k])
  {
    forall k, i | 0 <= k < |hints| && 0 <= i <= |error|
      ensures OccursAt(Lower(error), hints[k], i) <==> i + |hints[k]| <= |error| && SaysAt(error, hints[k], i)
    {
      OccursMeans(error, hints[k], i);
    }
    forall k | 0 <= k < |hints| && Says(error, hints[k]) ensures HasHint(error, hints) {
      var i :| 0 <= i <= |error| - |hints[k]| && SaysAt(error, hints[k], i);
      assert OccursAt(Lower(error), hints[k], i);
    }
  }

  lemma {:induction false} TransientMeans(r: ProbeResult)
    ensures Transient(r) <==> FailedForNow(r)
  {
    HintMeans(r.error, TRANSIENT_HINTS);
    var h := TRANSIENT_HINTS;
    assert |h| == 15;
    assert h[0] == "all models exhausted";
    assert h[1] == "bad gateway";
    assert h[2] == "backend error";
    assert h[3] == "connection refused";
    assert h[4] == "connection reset";
    assert h[5] == "context deadline";
    assert h[6] == "eof";
    assert h[7] == "gateway";
    assert h[8] == "no such host";
    assert h[9] == "proxy";
    assert h[10] == "upstream";
    assert h[11] == "rate limit";
    assert h[12] == "rate-limited";
    assert h[13] == "timeout";
    assert h[14] == "temporarily unavailable";
  }

  lemma {:induction false} UnavailableMeans(r: ProbeResult)
    ensures Unavailable(r) <==> SaysModelGone(r)
  {
    HintMeans(r.error, UNAVAILABLE_HINTS);
    HintMeans(r.error, ["temporarily unavailable"]);
    assert ["temporarily unavailable"][0] == "temporarily unavailable";
    var h := UNAVAILABLE_HINTS;
    assert |h| == 8;
    assert h[0] == "model_not_found";
    assert h[1] == "model not found";
    assert h[2] == "model does not exist";
    assert h[3] == "model no longer exists";
    assert h[4] == "model is not available";
    assert h[5] == "model unavailable";
    assert h[6] == "no such model";
    assert h[7] == "unknown model";
  }

  lemma {:induction false} DetectionMeans(id: string, chat: ProbeResult, embedding: ProbeResult, known: Option<Capability>)
    ensures var o := Classify(id, Detect(chat, embedding), known);
            o.id == id && DetectedAs(chat, embedding, known, o.capability, o.excluded, o.skipReason)
  {
    TransientMeans(chat);
    TransientMeans(embedding);
  }
}
