/** The supervisor's connection to its app server: answers overtake events, and events wait their turn. */
module AppServerObject {
  import opened Prelude

  datatype Message = Message(id: Option<nat>, failed: bool, hasResult: bool, body: string)

  datatype ServerError = EndOfStream | RequestFailed | ResultInvalid

  /** The first message that answers the request, or the number of messages. */
  function FirstAnswer(messages: seq<Message>, id: nat): (k: nat)
    ensures k <= |messages|
    ensures k < |messages| ==> messages[k].id == Some(id)
    ensures forall i :: 0 <= i < k ==> messages[i].id != Some(id)
  {
    if messages == [] || messages[0].id == Some(id) then 0 else 1 + FirstAnswer(messages[1..], id)
  }

  /** What a request hands back for its answer. */
  function Answer(m: Message): Result<Message, ServerError> {
    if m.failed then Err(RequestFailed) else if !m.hasResult then Err(ResultInvalid) else Ok(m)
  }

  class AppServer {
    /** Lines the server will still write. */
    var incoming: seq<Message>
    /** Messages read while waiting for an answer. */
    var pending: seq<Message>
    var nextId: nat

    constructor (incoming: seq<Message>)
      ensures Remaining() == incoming && nextId == 1
    {
      this.incoming, pending, nextId := incoming, [], 1;
    }

    /** Everything not handed out yet, in the order it was written. */
    function Remaining(): seq<Message>
      reads this
    {
      pending + incoming
    }

    /** Reads up to the answer; everything read before it waits in order, and nothing else is lost. */
    method Request() returns (r: Result<Message, ServerError>)
      modifies this
      ensures nextId == old(nextId) + 1
      ensures var k := FirstAnswer(old(incoming), old(nextId));
              if k < |old(incoming)| then
                && r == (if old(incoming)[k].failed then Err(RequestFailed)
                         else if old(incoming)[k].hasResult then Ok(old(incoming)[k]) else Err(ResultInvalid))
                && pending == old(pending) + old(incoming)[..k] && incoming == old(incoming)[k + 1..]
                && Remaining() == old(Remaining())[..|old(pending)| + k] + old(Remaining())[|old(pending)| + k + 1..]
              else r == Err(EndOfStream) && Remaining() == old(Remaining())
    {
      var id := nextId;
      nextId := nextId + 1;
      var n := 0;
      ghost var k := FirstAnswer(incoming, id);
      while incoming != []
        invariant n <= k && n <= |old(incoming)| && incoming == old(incoming)[n..]
        invariant pending == old(pending) + old(incoming)[..n] && nextId == id + 1
        decreases |incoming|
      {
        var m := incoming[0];
        incoming := incoming[1..];
        if m.id == Some(id) {
          assert n == k;
          return Answer(m);
        }
        pending := pending + [m];
        n := n + 1;
      }
      assert old(incoming)[..n] == old(incoming);
      r := Err(EndOfStream);
    }

    /** The oldest message not handed out yet. */
    method NextEvent() returns (r: Result<Message, ServerError>)
      modifies this
      ensures nextId == old(nextId)
      ensures if old(Remaining()) == [] then r == Err(EndOfStream) && Remaining() == []
              else r == Ok(old(Remaining())[0]) && Remaining() == old(Remaining())[1..]
    {
      if pending != [] {
        r := Ok(pending[0]);
        pending := pending[1..];
      } else if incoming != [] {
        r := Ok(incoming[0]);
        incoming := incoming[1..];
      } else {
        r := Err(EndOfStream);
      }
    }
  }
}
