/** Outbound messages and the list of messages waiting to be re-sent. */
module Outbox {
  import opened JsString

  /** The message bodies the bot sends: a text, or an image given by URL with
      a caption; both may mention users by their JIDs. */
  datatype Payload =
    | Text(body: Str, mentions: seq<Str>)
    | Image(url: Str, caption: Str, mentions: seq<Str>)

  /** One `sock.sendMessage(jid, msg)` call. */
  datatype Outbound = Outbound(jid: Str, msg: Payload)

  /** `pendingMessages`: the error notices whose first send failed, kept
      until the connection next opens. */
  class PendingMessages {
    var items: seq<Outbound>

    constructor ()
      ensures items == []
    {
      items := [];
    }

    /** Queue one message at the end; nothing else changes. */
    method Push(m: Outbound)
      modifies this
      ensures items == old(items) + [m]
    {
      items := items + [m];
    }

    /** Send every pending message, in order, and empty the list only when
        every send succeeded. `sendOk(i)` is the outcome of the `i`-th send.
        All sends are started whatever the outcomes, so the messages sent are
        exactly the old list; on any failure the whole list is kept, the
        messages that did go out included. */
    method FlushAll(sendOk: nat -> bool) returns (sent: seq<Outbound>, cleared: bool)
      modifies this
      ensures sent == old(items)
      ensures cleared <==> forall i :: 0 <= i < |old(items)| ==> sendOk(i)
      ensures items == if cleared then [] else old(items)
    {
      sent := [];
      cleared := true;
      if |items| > 0 {
        var i := 0;
        while i < |items|
          invariant 0 <= i <= |items|
          invariant sent == items[..i]
          invariant cleared <==> forall j :: 0 <= j < i ==> sendOk(j)
        {
          sent := sent + [items[i]];
          cleared := cleared && sendOk(i);
          i := i + 1;
        }
        if cleared {
          items := [];
        }
      }
    }
  }
}
