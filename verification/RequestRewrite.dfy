/**
 Preparing the upstream request: the model name and the usage option are rewritten in the decoded
 body, and when neither has to change the body is forwarded as it came.
 */
module RequestRewrite {
  import opened Options
  import opened Bytes
  import opened Frames
  import opened Catalog
  import opened SseRelay
  import opened SseClient

  /** A decoded JSON value, as far as the rewrite looks into it. */
  datatype Value =
    | Null
    | Bool(b: bool)
    | Text(s: string)
    | Object(fields: map<string, Value>)
    | Other(raw: string)

  type Fields = map<string, Value>

  /** The part of a request the proxy decodes up front. */
  datatype Head = Head(model: string, stream: bool, streamOptions: Option<Option<bool>>)

  function PeekUsage(options: Fields): Option<Option<bool>> {
    if "include_usage" !in options || options["include_usage"] == Null then Some(None)
    else if options["include_usage"].Bool? then Some(Some(options["include_usage"].b))
    else None
  }

  /** None when a field has the wrong type, which the proxy answers with an error. */
  function Peek(body: Fields): Option<Head> {
    var model := if "model" !in body then Some("") else match body["model"]
                 case Null => Some("") case Text(s) => Some(s) case _ => None;
    var stream := if "stream" !in body then Some(false) else match body["stream"]
                  case Null => Some(false) case Bool(b) => Some(b) case _ => None;
    var options := if "stream_options" !in body then Some(None) else match body["stream_options"]
                   case Null => Some(None)
                   case Object(f) => (var u := PeekUsage(f); if u.None? then None else Some(Some(u.value)))
                   case _ => None;
    if model.None? || stream.None? || options.None? then None
    else Some(Head(model.value, stream.value, options.value))
  }

  predicate AbsentOr(body: Fields, k: string, ok: Value -> bool) {
    k !in body || body[k] == Null || ok(body[k])
  }

  /** A request is understood exactly when its model is a string, its stream flag a boolean, its stream
      options an object with a boolean include_usage, or any of these is missing or null; the head holds
      their values, empty, false and none where they are missing. */
  lemma PeekReads(body: Fields)
    ensures Peek(body).Some? <==>
            && AbsentOr(body, "model", (v: Value) => v.Text?) && AbsentOr(body, "stream", (v: Value) => v.Bool?)
            && AbsentOr(body, "stream_options", (v: Value) => v.Object? && AbsentOr(v.fields, "include_usage", (u: Value) => u.Bool?))
    ensures Peek(body).Some? ==>
              var h := Peek(body).value;
              && h.model == (if "model" in body && body["model"].Text? then body["model"].s else "")
              && (h.stream <==> "stream" in body && body["stream"] == Bool(true))
              && (h.streamOptions.Some? <==> "stream_options" in body && body["stream_options"].Object?)
              && (h.streamOptions == Some(Some(true)) <==> Asked(body))
  {
  }

  /** The client asked for usage itself. */
  predicate Asked(body: Fields) {
    "stream_options" in body && body["stream_options"].Object?
    && "include_usage" in body["stream_options"].fields && body["stream_options"].fields["include_usage"] == Bool(true)
  }

  datatype Usage = Panics | Ensured(fields: Fields, injected: bool)

  function EnsureUsage(fields: Fields): Usage {
    var on := Object(map["include_usage" := Bool(true)]);
    if "stream_options" !in fields then Ensured(fields["stream_options" := on], true)
    else match fields["stream_options"]
         case Null => Panics  // decodes to a nil map, and writing to one panics
         case Object(f) =>
           if "include_usage" in f && f["include_usage"] == Bool(true) then Ensured(fields, false)
           else Ensured(fields["stream_options" := Object(f["include_usage" := Bool(true)])], true)
         case _ => Ensured(fields["stream_options" := on], true)
  }

  datatype Rewritten = Crash | Send(body: Fields, injectedUsage: bool)

  predicate NeedsUsage(head: Head) {
    head.stream && (head.streamOptions.None? || head.streamOptions.value.None? || !head.streamOptions.value.value)
  }

  function Rewrite(body: Fields, head: Head, upstreamModel: string): Rewritten {
    var needModel := head.model != upstreamModel;
    if !needModel && !NeedsUsage(head) then Send(body, false)
    else
      var fields := if needModel then body["model" := Text(upstreamModel)] else body;
      if !NeedsUsage(head) then Send(fields, false)
      else match EnsureUsage(fields)
           case Panics => Crash
           case Ensured(f, injected) => Send(f, injected)
  }

  /** The same, as the proxy does it: the decoded map is changed in place. */
  method RewriteBody(body: Fields, head: Head, upstreamModel: string) returns (r: Rewritten)
    ensures r == Rewrite(body, head, upstreamModel)
  {
    var needModel := head.model != upstreamModel;
    if !needModel && !NeedsUsage(head) {
      return Send(body, false);
    }
    var fields := body;
    var injected := false;
    if needModel {
      fields := fields["model" := Text(upstreamModel)];
    }
    if NeedsUsage(head) {
      var u := EnsureUsage(fields);
      if u.Panics? {
        return Crash;
      }
      fields, injected := u.fields, u.injected;
    }
    return Send(fields, injected);
  }

  /** The plain way: always set the model, and when streaming always ask for usage. */
  function Reference(body: Fields, head: Head, upstreamModel: string): Fields {
    var b := body["model" := Text(upstreamModel)];
    if !head.stream then b
    else
      var f := if "stream_options" in b && b["stream_options"].Object? then b["stream_options"].fields else map[];
      b["stream_options" := Object(f["include_usage" := Bool(true)])]
  }

  /** The rewrite crashes exactly on a streaming request whose stream_options is null. */
  lemma CrashesIff(body: Fields, head: Head, upstreamModel: string)
    requires Peek(body) == Some(head)
    ensures Rewrite(body, head, upstreamModel).Crash? <==>
            head.stream && "stream_options" in body && body["stream_options"] == Null
  {
  }

  /** Skipping the work when nothing changes is invisible: the body sent is field for field the plain
      one, and usage is reported as injected exactly when a streaming client had not asked for it. */
  lemma RewriteIsReference(body: Fields, head: Head, upstreamModel: string)
    requires Peek(body) == Some(head) && head.model != ""
    requires !(head.stream && "stream_options" in body && body["stream_options"] == Null)
    ensures Rewrite(body, head, upstreamModel)
            == Send(Reference(body, head, upstreamModel), head.stream && !Asked(body))
  {
    assert body["model"] == Text(head.model);
    var b := body["model" := Text(upstreamModel)];
    if head.model == upstreamModel { assert b == body; }
    if Asked(body) {
      var f := body["stream_options"].fields;
      assert f["include_usage" := Bool(true)] == f;
      assert b["stream_options" := Object(f)] == b;
    }
  }

  // ---------------------------------------------------------------------------
  // End to end
  // ---------------------------------------------------------------------------

  function PatchAll(es: seq<Bytes>, entry: Entry): seq<Bytes> {
    if es == [] then [] else [Patch(entry, es[0])] + PatchAll(es[1..], entry)
  }

  function WithoutUsage(es: seq<Bytes>): seq<Bytes> {
    if es == [] then []
    else (if HasUsage(TrimSpace(es[0])) then [] else [es[0]]) + WithoutUsage(es[1..])
  }

  lemma {:induction false} DeliveredCases(es: seq<Bytes>, entry: Entry)
    ensures Delivered(es, entry, false) == PatchAll(es, entry)
    ensures Delivered(es, entry, true) == PatchAll(WithoutUsage(es), entry)
    decreases |es|
  {
    if es != [] {
      DeliveredCases(es[1..], entry);
      var rest := WithoutUsage(es[1..]);
      if HasUsage(TrimSpace(es[0])) {
        assert WithoutUsage(es) == rest;
      } else {
        assert WithoutUsage(es) == [es[0]] + rest;
        assert ([es[0]] + rest)[1..] == rest;
      }
    }
  }

  /** For a streaming request, the flag that the rewrite hands to the relay makes the client get every
      event when it asked for usage, and every event but the usage ones when it did not. */
  lemma UsageOnlyIfAsked(body: Fields, head: Head, entry: Entry, es: seq<Bytes>)
    requires Peek(body) == Some(head) && head.model != "" && head.stream
    requires !("stream_options" in body && body["stream_options"] == Null)
    ensures var r := Rewrite(body, head, entry.upstreamModel);
            r.Send? && Delivered(es, entry, r.injectedUsage) == PatchAll(if Asked(body) then es else WithoutUsage(es), entry)
  {
    RewriteIsReference(body, head, entry.upstreamModel);
    DeliveredCases(es, entry);
  }

  /** From the request to the client: whatever the keep-alives in between, the client of a streaming
      request dispatches every upstream event, patched, without the usage events exactly when it had
      not asked for usage. */
  lemma ClientSeesUsageOnlyIfAsked(body: Fields, head: Head, entry: Entry, es: seq<Bytes>, w: seq<Bytes>)
    requires Peek(body) == Some(head) && head.model != "" && head.stream
    requires !("stream_options" in body && body["stream_options"] == Null)
    requires OneLineEvents(es) && GoodNames(entry)
    requires Rewrite(body, head, entry.upstreamModel).Send?
    requires Interleaved(w, ForwardAll(SplitLines(Stream(es)), entry,
                                       Rewrite(body, head, entry.upstreamModel).injectedUsage), KEEPALIVE)
    ensures Feed(NewClient(), Concat(w)).messages
            == Messages(PatchAll(if Asked(body) then es else WithoutUsage(es), entry))
  {
    var drop := Rewrite(body, head, entry.upstreamModel).injectedUsage;
    UsageOnlyIfAsked(body, head, entry, es);
    RelayIsTransparent(es, entry, drop, w);
  }

  /** The upstream is always asked for usage on a streaming request, whether the client asked or not. */
  lemma UpstreamIsAlwaysAsked(body: Fields, head: Head, upstreamModel: string)
    requires Peek(body) == Some(head) && head.stream && Rewrite(body, head, upstreamModel).Send?
    ensures Asked(Rewrite(body, head, upstreamModel).body)
  {
  }
}
