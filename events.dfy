/** The socket listeners of the bot that carry logic: `messages.upsert`,
    `messages.reaction` and `connection.update`. (The welcome listener is in
    module Welcome.) */
module Events {
  import opened Options
  import opened JsString
  import opened InboundText
  import opened Routing
  import opened Outbox
  import opened Connection

  /** The notice sent back to the sender when a handler throws. */
  const ErrorNotice: Str := "\U{274C} Erro ao processar sua solicita\U{00E7}\U{00E3}o."

  /** The message the listener routes: `messages[0]`, when the batch is
      present and non-empty; every later message of the batch is ignored. */
  function FirstMessage(batch: Option<seq<Message>>): (m: Option<Message>)
    ensures m.Some? <==> batch.Some? && |batch.value| > 0
    ensures m.Some? ==> m.value == batch.value[0]
  {
    if batch.Some? && |batch.value| > 0 then Some(batch.value[0]) else None
  }

  /** The handler calls planned for one message: its normalised, lower-cased
      text, its sender and whether it carries an image decide them. */
  function PlanFor(msg: Message): seq<Call> {
    Dispatch(LowerText(msg.content), msg.remoteJid, msg.content.Some? && msg.content.value.hasImage)
  }

  /** The handler calls planned for a whole batch. */
  function BatchPlan(batch: Option<seq<Message>>): seq<Call> {
    match FirstMessage(batch)
    case None => []
    case Some(m) => PlanFor(m)
  }

  /** An absent or empty batch calls nothing; otherwise the plan is that of
      the first message, whatever follows it, and always calls the pix
      detector. */
  lemma BatchPlanFirstOnly(m: Message, rest: seq<Message>)
    ensures BatchPlan(None) == [] && BatchPlan(Some([])) == []
    ensures BatchPlan(Some([m] + rest)) == BatchPlan(Some([m])) == PlanFor(m)
    ensures PixDetector in BatchPlan(Some([m] + rest))
  {
  }

  /** The `messages.upsert` listener. The plan's calls are awaited in turn;
      `throwsAt` is the position of the first call that throws, if any. On a
      throw the remaining calls are skipped and the error notice is sent to
      the sender; when that send fails too (`replyOk` false) the notice is
      appended to the pending list, which otherwise does not change. */
  method OnMessagesUpsert(pending: PendingMessages, batch: Option<seq<Message>>,
                          throwsAt: Option<nat>, replyOk: bool)
    returns (called: seq<Call>, reply: Option<Outbound>)
    modifies pending
    ensures var plan := BatchPlan(batch);
            if throwsAt.Some? && throwsAt.value < |plan| then
              called == plan[..throwsAt.value + 1]
              && reply == Some(Outbound(FirstMessage(batch).value.remoteJid, Text(ErrorNotice, [])))
            else
              called == plan && reply == None
    ensures pending.items == if reply.Some? && !replyOk then old(pending.items) + [reply.value]
                             else old(pending.items)
  {
    called, reply := [], None;
    if batch.None? || |batch.value| == 0 {
      return;
    }
    var msg := batch.value[0];
    var sender := msg.remoteJid;
    var lower := LowerText(msg.content);
    var hasImage := msg.content.Some? && msg.content.value.hasImage;
    var plan := Dispatch(lower, sender, hasImage);
    assert FirstMessage(batch) == Some(msg);
    assert plan == BatchPlan(batch);
    if throwsAt.Some? && throwsAt.value < |plan| {
      called := plan[..throwsAt.value + 1];
      var notice := Outbound(sender, Text(ErrorNotice, []));
      reply := Some(notice);
      if !replyOk {
        pending.Push(notice);
      }
    } else {
      called := plan;
    }
  }

  /** The `messages.reaction` listener: the reaction handler is awaited for
      each reaction in order; one that throws ends the loop, so the reactions
      after it are not handled. */
  method OnReactions<R>(reactions: seq<R>, throwsAt: Option<nat>) returns (handled: seq<R>)
    ensures throwsAt.Some? && throwsAt.value < |reactions| ==> handled == reactions[..throwsAt.value + 1]
    ensures throwsAt.None? || throwsAt.value >= |reactions| ==> handled == reactions
  {
    handled := [];
    var i := 0;
    while i < |reactions|
      invariant 0 <= i <= |reactions|
      invariant handled == reactions[..i]
      invariant throwsAt.Some? ==> i <= throwsAt.value
    {
      handled := handled + [reactions[i]];
      if throwsAt == Some(i) {
        return;
      }
      i := i + 1;
    }
  }

  /** The `connection.update` listener: the effects are those `Decide`
      chooses, and the pending list is flushed exactly when the update opens
      the connection and starting the group scheduler did not throw
      (`schedulerThrows`). */
  method OnConnectionUpdate(pending: PendingMessages, u: Update, schedulerThrows: bool, sendOk: nat -> bool)
    returns (effects: seq<Effect>, sent: seq<Outbound>, cleared: bool)
    modifies pending
    ensures effects == Decide(u, schedulerThrows)
    ensures u.connection == Some(Open) && !schedulerThrows ==>
              sent == old(pending.items)
              && (cleared <==> forall i :: 0 <= i < |old(pending.items)| ==> sendOk(i))
              && pending.items == if cleared then [] else old(pending.items)
    ensures u.connection != Some(Open) || schedulerThrows ==> sent == [] && pending.items == old(pending.items)
  {
    effects := Decide(u, schedulerThrows);
    sent, cleared := [], false;
    if u.connection == Some(Open) && !schedulerThrows {
      sent, cleared := pending.FlushAll(sendOk);
    }
  }
}
