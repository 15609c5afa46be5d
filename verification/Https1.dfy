/** https1_reactor/Https1Handler.cpp: a server connection, which takes HTTP messages
    until it is upgraded and WebSocket frames from then on. */
module Https1 {
  import opened Bytes
  import opened HttpHeaders
  import HttpText
  import Http1
  import Http1Stream
  import opened WebSockets
  import opened WsStream

  /** Received bytes as the characters of a std::string. */
  function Chars(data: seq<Byte>): (s: string)
    ensures |s| == |data|
  {
    seq(|data|, i requires 0 <= i < |data| => (data[i] as int) as char)
  }

  /** Http1Response::is_websocket_upgrade */
  ghost predicate Upgrades(status: int, fields: seq<Field>) {
    status == 101 && HttpText.Fold(Http1.FirstValue(fields, "upgrade")) == "websocket"
  }

  class Https1Handler {
    var bufferHttp1: string
    var streamId: int
    var bufferWebsocket: seq<Byte>

    /** websocket_: which of the two buffers input goes to. */
    var websocket: bool

    /** What has been handed to handle_request and handle_error of the HTTP half. */
    ghost var requests: seq<Http1.Outcome>
    ghost var errors: nat

    /** Every frame handed to the other handle_request, every frame taken out of the
        buffer, handed on or not, and what has become of the loop. */
    var delivered: seq<WebSocket>
    ghost var taken: seq<WebSocket>
    var status: Status

    ghost function HttpModel(): Http1Stream.Input
      reads this
    {
      Http1Stream.Input(bufferHttp1, requests, errors)
    }

    ghost function WsModel(): Stream
      reads this
    {
      Stream(taken, bufferWebsocket, status)
    }

    /** Frames are handed on when the loop has ended, not before. */
    ghost predicate Valid()
      reads this
    {
      status.Waiting? ==> delivered == taken
    }

    constructor ()
      ensures Valid() && !websocket && HttpModel() == Http1Stream.EMPTY && WsModel() == EMPTY
    {
      bufferHttp1, streamId, bufferWebsocket, websocket := "", 0, [], false;
      requests, errors, delivered, taken, status := [], 0, [], [], Waiting;
    }

    /** int32_t: after the largest number comes 0 again. */
    method NextStreamId() returns (id: int)
      modifies this`streamId
      ensures id == streamId
      ensures 0 <= old(streamId) < 0x8000_0000 ==> id == (old(streamId) + 1) % 0x8000_0000
    {
      streamId := if streamId == 0x7FFF_FFFF then -0x8000_0000 else streamId + 1;
      if streamId < 0 {
        streamId := 0;
      }
      id := streamId;
    }

    /** handle_input */
    method HandleInput(data: seq<Byte>)
      requires Valid()
      requires websocket ==> status.Waiting? && |bufferWebsocket| + |data| < TWO64
      modifies this
      ensures Valid() && websocket == old(websocket)
      ensures !websocket ==> HttpModel() == Http1Stream.Feed(Http1.Requests, old(HttpModel()), Chars(data)) && WsModel() == old(WsModel())
      ensures websocket ==> HttpModel() == old(HttpModel()) && WsModel() == Feed(old(WsModel()), data)
    {
      hide Http1.Parse;
      if websocket {
        HandleInputWs(data);
        return;
      }
      bufferHttp1 := bufferHttp1 + Chars(data);
      var r := Http1Stream.ParseMessage(Http1.Requests, bufferHttp1);
      if r.Incomplete? {
        return;
      }
      bufferHttp1 := "";
      if r.Error? {
        errors := errors + 1;
        return;
      }
      var _ := NextStreamId();
      requests := requests + [r];
    }

    /** handle_sent_http1: once the answer to an upgrade is out, frames follow. */
    method HandleSentHttp1(responseStatus: int, header: HttpHeader)
      requires header.Valid()
      modifies this`websocket
      ensures websocket == (old(websocket) || Upgrades(responseStatus, header.Fields()))
    {
      hide HttpText.Fold, HttpHeader.Valid;
      ghost var fs := header.Fields();
      var value := header.Get("upgrade");
      Http1.GotIsFirst(fs, "upgrade", value);
      if responseStatus == 101 && HttpText.Fold(value) == "websocket" {
        websocket := true;
      }
    }

    /** handle_input_ws.  The exceptions of the parser are the two incomplete ones,
        so the error branch of the source is never taken.  A round that takes out
        a frame of no byte leaves everything as it is, so there will be no other:
        the method gives up there, where the source goes round for ever. */
    method HandleInputWs(data: seq<Byte>)
      requires Valid() && status.Waiting? && |bufferWebsocket| + |data| < TWO64
      modifies this`bufferWebsocket, this`delivered, this`taken, this`status
      ensures Valid() && WsModel() == Feed(old(WsModel()), data)
      ensures !status.Waiting? ==> delivered == old(delivered)
      ensures !status.Spinning? <==> Ends(old(bufferWebsocket) + data)
    {
      bufferWebsocket := bufferWebsocket + data;
      var requests := [];
      ghost var all := bufferWebsocket;
      AfterAfter([], [], DecodeAll(all));
      LoopEndsIff(all);
      while true
        invariant |bufferWebsocket| < TWO64 && status.Waiting? && delivered == taken == old(delivered)
        invariant DecodeAll(all) == After(requests, DecodeAll(bufferWebsocket))
        decreases |bufferWebsocket|
      {
        var beyond: seq<Byte> := *;
        if |beyond| != 2 {
          beyond := [0, 0];
        }
        var r := Parse(bufferWebsocket, beyond);
        if r.Incomplete? {
          break;
        }
        if r.Overrun? {
          status := Overran;
          break;
        }
        if |r.ws.buffer| == 0 {
          status := Spinning;
          break;
        }
        UnfoldFrame(bufferWebsocket, r.ws);
        AfterAfter(requests, [r.ws], DecodeAll(bufferWebsocket[|r.ws.buffer|..]));
        bufferWebsocket := bufferWebsocket[|r.ws.buffer|..];
        requests := requests + [r.ws];
      }
      UnfoldStop(bufferWebsocket);
      assert requests + [] == requests;
      taken := taken + requests;
      if status.Waiting? {
        delivered := delivered + requests;
      }
    }
  }
}
