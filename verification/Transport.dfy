/** The retrying transport below the reverse proxy: several base calls to one node,
    with growing pauses, inside one attempt of the request loop. */
module Transport {
  import opened Common
  import opened Retry

  const PREVIEW_LIMIT: nat := 4096

  datatype Context = Alive | Canceled | DeadlineExceeded

  /** The pause before call number `n`, counting from zero. */
  function Pause(n: int): int {
    150_000_000 * n
  }

  /** What one base call yields. */
  datatype Reply =
    | Response(status: int, body: string, readable: bool)
    | NetworkError(message: string)
    | ContextError(reason: Context)

  datatype Call = Call(reply: Reply, took: nat)

  datatype Sent = Sent(at: int, body: Option<string>, call: Call)

  datatype Fault =
    | Broken(message: string)
    | Status(status: int, preview: string)
    | Unreadable(status: int)
    | Empty(status: int)

  datatype Body = Verbatim(text: string) | Synthesized(fault: Fault)

  datatype Verdict =
    | NoBase
    | Ended(reason: Context)
    | Passed(reply: Reply)
    | Rewritten(status: int, body: Body)
    | Failed(fault: Fault)

  predicate Final(r: Reply) {
    r.ContextError? || (r.Response? && r.status == 200)
  }

  function Preview(r: Reply): string
    requires r.Response?
  {
    if !r.readable then "" else if |r.body| <= PREVIEW_LIMIT then r.body else r.body[..PREVIEW_LIMIT]
  }

  function FaultOf(r: Reply): Fault
    requires !r.ContextError?
  {
    match r
    case NetworkError(m) => Broken(m)
    case Response(status, _, readable) =>
      if Preview(r) != [] then Status(status, Preview(r))
      else if !readable then Unreadable(status)
      else Empty(status)
  }

  /** The last response any attempt produced. */
  function LastAnswer(sent: seq<Sent>): (r: Option<Reply>)
    ensures r.Some? ==> r.value.Response?
  {
    if sent == [] then None
    else if sent[|sent| - 1].call.reply.Response? then Some(sent[|sent| - 1].call.reply)
    else LastAnswer(sent[..|sent| - 1])
  }

  /** The preview of the last response whose body was readable and not empty; "" if there is none. */
  function LastPreview(sent: seq<Sent>): string {
    if sent == [] then ""
    else
      var r := sent[|sent| - 1].call.reply;
      if r.Response? && Preview(r) != "" then Preview(r) else LastPreview(sent[..|sent| - 1])
  }

  lemma {:induction false} NoSuccessToReport(sent: seq<Sent>)
    requires forall i :: 0 <= i < |sent| ==> !Final(sent[i].call.reply)
    ensures LastAnswer(sent).Some? ==> LastAnswer(sent).value.status != 200
  {
    if sent != [] {
      NoSuccessToReport(sent[..|sent| - 1]);
    }
  }

  lemma {:induction false} LastAnswerTold(sent: seq<Sent>)
    ensures LastAnswer(sent).None? <==> forall i :: 0 <= i < |sent| ==> !sent[i].call.reply.Response?
    ensures forall i :: 0 <= i < |sent| && sent[i].call.reply.Response?
                        && (forall j :: i < j < |sent| ==> !sent[j].call.reply.Response?) ==>
                          LastAnswer(sent) == Some(sent[i].call.reply)
    ensures LastAnswer(sent).Some? ==>
              exists i :: 0 <= i < |sent| && sent[i].call.reply == LastAnswer(sent).value
  {
    if sent != [] {
      var before := sent[..|sent| - 1];
      LastAnswerTold(before);
      assert forall i :: 0 <= i < |before| ==> before[i] == sent[i];
    }
  }

  /** How a request whose attempts all failed is answered. */
  ghost predicate Exhausted(sent: seq<Sent>, v: Verdict) {
    && sent != [] && !sent[|sent| - 1].call.reply.ContextError?
    && var fault := FaultOf(sent[|sent| - 1].call.reply);
    v == match LastAnswer(sent)
         case None => Failed(fault)
         case Some(r) =>
           Rewritten(r.status, if LastPreview(sent) != "" then Verbatim(LastPreview(sent)) else Synthesized(fault))
  }

  lemma {:induction false} LastPreviewOrigin(sent: seq<Sent>)
    ensures LastPreview(sent) != "" ==>
              exists i :: 0 <= i < |sent| && sent[i].call.reply.Response?
                && Preview(sent[i].call.reply) == LastPreview(sent)
    ensures LastPreview(sent) == "" <==>
              forall i :: 0 <= i < |sent| && sent[i].call.reply.Response? ==> Preview(sent[i].call.reply) == ""
  {
    if sent != [] {
      LastPreviewOrigin(sent[..|sent| - 1]);
    }
  }

  lemma {:induction false} AnsweredPreview(sent: seq<Sent>)
    ensures LastAnswer(sent).Some? && Preview(LastAnswer(sent).value) != "" ==>
              LastPreview(sent) == Preview(LastAnswer(sent).value)
  {
    if sent != [] {
      AnsweredPreview(sent[..|sent| - 1]);
    }
  }

  /** When every try fails, the client receives the status of the last response and, with it, that
      response's own body exactly when that body was readable and not empty, or nobody's was;
      otherwise the body comes from an earlier response. */
  lemma BodyBelongsToStatus(sent: seq<Sent>, v: Verdict)
    requires Exhausted(sent, v) && v.Rewritten?
    ensures var own := Preview(LastAnswer(sent).value);
            && v.status == LastAnswer(sent).value.status
            && (v.body == Verbatim(own) <==> own != "")
            && (own == "" && v.body.Verbatim? <==>
                  own == "" && exists i :: 0 <= i < |sent| &&
                                           sent[i].call.reply.Response? && Preview(sent[i].call.reply) != "")
  {
    AnsweredPreview(sent);
    LastPreviewOrigin(sent);
  }

  /** What is answered when every try fails: if the last call was answered with a readable body, up to 4096 characters
      of that; if no answer ever had one, the fault of the last call; and without any answer the last network error. */
  lemma AnswerTells(sent: seq<Sent>, v: Verdict)
    requires Exhausted(sent, v)
    ensures var last := sent[|sent| - 1].call.reply;
            && (last.Response? && last.readable && last.body != "" ==>
                  v == Rewritten(last.status, Verbatim(if |last.body| <= 4096 then last.body else last.body[..4096])))
            && (v.Rewritten? && (forall i :: 0 <= i < |sent| && sent[i].call.reply.Response? ==>
                  !sent[i].call.reply.readable || sent[i].call.reply.body == "") ==>
                  v.body == Synthesized(if last.NetworkError? then Broken(last.message)
                                        else if last.readable then Empty(last.status) else Unreadable(last.status)))
            && (v.Failed? ==> last.NetworkError? && v == Failed(Broken(last.message)))
            && (v.Failed? <==> forall i :: 0 <= i < |sent| ==> !sent[i].call.reply.Response?)
            && (v.Failed? || v.Rewritten?)
  {
    LastAnswerTold(sent);
    LastPreviewOrigin(sent);
    PreviewEmpty(sent[|sent| - 1].call.reply);
    forall i | 0 <= i < |sent| && sent[i].call.reply.Response?
      ensures !sent[i].call.reply.readable || sent[i].call.reply.body == "" ==> Preview(sent[i].call.reply) == ""
    {
    }
  }

  lemma PreviewEmpty(r: Reply)
    ensures r.Response? ==> (Preview(r) == "" <==> !r.readable || r.body == "")
  {
  }

  /** A run in which the body of a 500 is returned under status 502. */
  lemma StaleBodyExample(v: Verdict)
    requires Exhausted([Sent(0, None, Call(Response(500, "oops", true), 0)),
                        Sent(Pause(1), None, Call(Response(502, "", true), 0))], v)
    ensures v == Rewritten(502, Verbatim("oops"))
  {
    var sent := [Sent(0, None, Call(Response(500, "oops", true), 0)),
                 Sent(Pause(1), None, Call(Response(502, "", true), 0))];
    assert sent[..1] == [sent[0]] && sent[..1][..0] == [];
    assert LastPreview(sent[..1]) == "oops";
    assert Preview(sent[1].call.reply) == "";
    assert LastAnswer(sent) == Some(sent[1].call.reply);
  }

  /** Calls are separated by a pause that grows by one unit each time. */
  ghost predicate Timeline(start: int, sent: seq<Sent>) {
    && (sent != [] ==> sent[0].at == start)
    && forall i :: 0 < i < |sent| ==> sent[i].at == sent[i - 1].at + sent[i - 1].call.took + Pause(i)
  }

  /** When the last base call returned. */
  function Finish(start: int, sent: seq<Sent>): int {
    if sent == [] then start else sent[|sent| - 1].at + sent[|sent| - 1].call.took
  }

  /** The calls of one round trip: each carries the request's own body, asks the upstream, starts with
      a live context, and only the last of them may be a 200 or a context error. */
  ghost predicate Calls(start: int, body: Option<string>, ctx: int -> Context, up: (nat, int) -> Call,
      sent: seq<Sent>) {
    && Timeline(start, sent)
    && (forall i :: 0 <= i < |sent| ==>
          sent[i].body == body && sent[i].call == up(i, sent[i].at) && ctx(sent[i].at).Alive?)
    && forall i :: 0 <= i < |sent| - 1 ==> !Final(sent[i].call.reply)
  }

  lemma NoCalls(start: int, body: Option<string>, ctx: int -> Context, up: (nat, int) -> Call)
    ensures Calls(start, body, ctx, up, [])
  {
  }

  lemma CallsExtend(start: int, body: Option<string>, ctx: int -> Context, up: (nat, int) -> Call, sent: seq<Sent>,
      at: int)
    requires Calls(start, body, ctx, up, sent) && ctx(at).Alive?
    requires sent != [] ==> !Final(sent[|sent| - 1].call.reply)
    requires at == Finish(start, sent) + Pause(|sent|)
    ensures var all := sent + [Sent(at, body, up(|sent|, at))];
            Calls(start, body, ctx, up, all) && all[..|sent|] == sent
  {
    var all := sent + [Sent(at, body, up(|sent|, at))];
    assert forall i :: 0 <= i < |sent| ==> all[i] == sent[i];
  }

  /** How a round trip over a real base transport ends, as a function of the calls it made. */
  ghost predicate Concludes(tries: nat, ctx: int -> Context, start: int, sent: seq<Sent>, v: Verdict, end: int) {
    if sent != [] && Final(sent[|sent| - 1].call.reply) then
      var reply := sent[|sent| - 1].call.reply;
      end == Finish(start, sent) && v == if reply.Response? then Passed(reply) else Ended(reply.reason)
    else if |sent| < tries then
      end == Finish(start, sent) + Pause(|sent|) && v == Ended(ctx(end)) && ctx(end) != Alive
    else Exhausted(sent, v) && end == Finish(start, sent)
  }

  /** The calls of a round trip and how it ends: every call carries the request's own body and begins with a live
      context; the waits between calls grow by 150 milliseconds; no call but the last
      is answered with a 200 or ends with its context; a 200 is passed on as it is; a context that ended is reported,
      whether a call said so or it had ended when the next call was due; and everything else takes all the tries. */
  lemma RoundTripTells(
    tries: nat, ctx: int -> Context, start: int, body: Option<string>, up: (nat, int) -> Call, sent: seq<Sent>,
    v: Verdict, end: int)
    requires tries >= 1 && |sent| <= tries && Calls(start, body, ctx, up, sent)
    requires Concludes(tries, ctx, start, sent, v, end)
    ensures sent != [] ==> sent[0].at == start
    ensures forall i :: 0 <= i < |sent| ==>
                          sent[i].body == body && sent[i].call == up(i, sent[i].at) && ctx(sent[i].at).Alive?
    ensures forall i :: 0 < i < |sent| ==>
                          sent[i].at == sent[i - 1].at + sent[i - 1].call.took + 150_000_000 * i
    ensures forall i :: 0 <= i < |sent| - 1 ==>
                          var r := sent[i].call.reply; !r.ContextError? && (r.Response? ==> r.status != 200)
    ensures |sent| < tries ==>
              v.Ended? || (v.Passed? && sent[|sent| - 1].call.reply.Response?
                && sent[|sent| - 1].call.reply.status == 200)
    ensures v.Passed? <==>
            sent != [] && sent[|sent| - 1].call.reply.Response? && sent[|sent| - 1].call.reply.status == 200
    ensures v.Passed? ==> v.reply == sent[|sent| - 1].call.reply
    ensures v.Ended? <==> (sent != [] && sent[|sent| - 1].call.reply.ContextError?) || (|sent| < tries && !v.Passed?)
    ensures v.Ended? ==> v.reason == if sent != [] && sent[|sent| - 1].call.reply.ContextError?
                                     then sent[|sent| - 1].call.reply.reason else ctx(end)
    ensures end == if |sent| == 0 then start
                   else sent[|sent| - 1].at + sent[|sent| - 1].call.took
                        + if |sent| < tries && v.Ended? && !sent[|sent| - 1].call.reply.ContextError?
                          then 150_000_000 * |sent| else 0
  {
    hide LastAnswer, LastPreview;
  }

  /** The upstream returns by the time its context expires. */
  ghost predicate Prompt(up: (nat, int) -> Call, expiry: int) {
    forall i: nat, t: int :: t < expiry ==> t + up(i, t).took <= expiry
  }

  ghost predicate Expires(ctx: int -> Context, expiry: int) {
    forall t :: t >= expiry ==> ctx(t) != Alive
  }

  /** With an upstream that respects its context, no base call outlives the context's expiry, so the
      transport ends within its longest pause after it. */
  lemma {:induction false} EndsInTime(
    start: int, expiry: int, body: Option<string>, ctx: int -> Context, up: (nat, int) -> Call, sent: seq<Sent>)
    requires Calls(start, body, ctx, up, sent) && Prompt(up, expiry) && Expires(ctx, expiry)
    ensures start <= Finish(start, sent) <= Later(start, expiry)
    ensures forall i :: 0 <= i < |sent| ==> start <= sent[i].at < expiry
  {
    if sent != [] {
      EndsInTime(start, expiry, body, ctx, up, sent[..|sent| - 1]);
      var last := |sent| - 1;
      assert ctx(sent[last].at).Alive?;
      assert sent[last].at + up(last, sent[last].at).took <= expiry;
    }
  }

  function Later(a: int, b: int): int {
    if a >= b then a else b
  }

  class RetryTransport {
    const hasBase: bool
    var attempts: int

    constructor (hasBase: bool, attempts: int)
      ensures this.hasBase == hasBase && this.attempts == attempts
    {
      this.hasBase := hasBase;
      this.attempts := attempts;
    }

    function Tries(): nat
      reads this
    {
      if attempts < 1 then 1 else attempts
    }

    /** At most `Tries()` base calls, all with the request's own body and none after the context
        ended; it stops at the first 200 or context error and otherwise reports the last response. */
    method RoundTrip(start: int, body: Option<string>, expiry: int, ctx: int -> Context, up: (nat, int) -> Call)
      returns (verdict: Verdict, sent: seq<Sent>, end: int)
      requires forall i: nat, t: int :: up(i, t).reply.ContextError? ==> up(i, t).reply.reason != Alive
      ensures |sent| <= Tries() && Calls(start, body, ctx, up, sent)
      ensures verdict.NoBase? <==> !hasBase
      ensures if hasBase then Concludes(Tries(), ctx, start, sent, verdict, end) else sent == [] && end == start
      ensures |sent| <= if attempts < 1 then 1 else attempts
      ensures verdict.Ended? ==> verdict.reason != Alive
      ensures start <= end
    {
      hide Calls, Preview;
      sent, end := [], start;
      NoCalls(start, body, ctx, up);
      if !hasBase {
        return NoBase, sent, end;
      }
      var limit := if attempts < 1 then 1 else attempts;
      var lastStatus: Option<int>, lastFault: Option<Fault>, lastBody := None, None, "";
      for i := 0 to limit
        invariant |sent| == i && Calls(start, body, ctx, up, sent)
        invariant 0 < i ==> !Final(sent[i - 1].call.reply)
        invariant start <= end
        invariant end == Finish(start, sent) + if i < limit then Pause(i) else 0
        invariant lastStatus.Some? <==> LastAnswer(sent).Some?
        invariant lastStatus.Some? ==>
                    LastAnswer(sent).value.Response? && lastStatus.value == LastAnswer(sent).value.status
        invariant lastBody == LastPreview(sent)
        invariant if i == 0 then lastFault.None? else lastFault == Some(FaultOf(sent[i - 1].call.reply))
      {
        if ctx(end) != Alive {
          return Ended(ctx(end)), sent, end;
        }
        var call := up(i, end);
        CallsExtend(start, body, ctx, up, sent, end);
        sent := sent + [Sent(end, body, call)];
        end := end + call.took;
        match call.reply {
          case ContextError(reason) =>
            return Ended(reason), sent, end;
          case NetworkError(message) =>
            lastFault := Some(Broken(message));
          case Response(status, _, _) =>
            if status == 200 {
              return Passed(call.reply), sent, end;
            }
            lastStatus := Some(status);
            var preview := Preview(call.reply);
            if preview != "" {
              lastBody := preview;
            }
            lastFault := Some(FaultOf(call.reply));
        }
        if i < limit - 1 {
          end := end + Pause(i + 1);
        }
      }
      if lastStatus.Some? {
        var answer := if |lastBody| > 0 then Verbatim(lastBody) else Synthesized(lastFault.value);
        return Rewritten(lastStatus.value, answer), sent, end;
      }
      return Failed(lastFault.value), sent, end;
    }
  }
}
