/** Reads of exact lengths from a socket's byte stream. */
module SocketManager {
  import B = IOBuf
  import C = ChainSplit

  const U32 := 0x1_0000_0000

  /** Every completed read has the length it was asked for. */
  predicate Exact(asked: seq<nat>, answers: seq<seq<nat>>) {
    |asked| == |answers| && forall i | 0 <= i < |asked| :: |answers[i]| == asked[i]
  }

  class TcpSession {
    /** The bytes not read yet; the empty sequence is the null pointer. */
    var inbuf: seq<seq<nat>>
    var readBlocked: bool
    var readLen: nat
    /** What the futures were fulfilled with. */
    var answers: seq<seq<nat>>

    ghost var received: seq<nat>
    ghost var asked: seq<nat>

    /** Nothing is lost: what has been read, then what is there to be read, is what
        arrived, and every read got what it asked for. */
    ghost predicate Valid()
      reads this
    {
      B.Join(answers) + B.Join(inbuf) == received && Exact(asked, answers)
    }

    /** A read that waits lacks bytes, or anything at all. */
    ghost predicate Settled()
      reads this
    {
      readBlocked ==> inbuf == [] || |B.Join(inbuf)| < readLen
    }

    constructor ()
      ensures Valid() && Settled() && received == [] && !readBlocked && inbuf == [] && answers == []
    {
      inbuf, readBlocked, readLen, answers, received, asked := [], false, 0, [], [], [];
    }

    method Answer(bytes: seq<nat>)
      requires |bytes| == readLen && Exact(asked, answers)
      modifies this`answers, this`readBlocked, this`asked
      ensures answers == old(answers) + [bytes] && asked == old(asked) + [readLen] && !readBlocked
      ensures Exact(asked, answers) && B.Join(answers) == old(B.Join(answers)) + bytes
    {
      B.JoinConcat(answers, [bytes]);
      assert [bytes][1..] == [];
      answers := answers + [bytes];
      asked := asked + [readLen];
      readBlocked := false;
    }

    /** Completes the read that waits, if it can: exactly when there is something, and
        enough. */
    method CheckRead()
      requires Valid() && |B.Join(inbuf)| < U32
      modifies this`inbuf, this`answers, this`readBlocked, this`asked
      ensures Valid() && Settled()
      ensures !readBlocked && old(readBlocked) <==>
        old(readBlocked && inbuf != [] && |B.Join(inbuf)| >= readLen)
      ensures !readBlocked && old(readBlocked) ==>
        answers == old(answers) + [old(B.Join(inbuf))[..readLen]] && B.Join(inbuf) == old(B.Join(inbuf))[readLen..]
      ensures readBlocked || !old(readBlocked) ==> inbuf == old(inbuf) && answers == old(answers)
      ensures !old(readBlocked) ==> !readBlocked
    {
      if inbuf == [] || !readBlocked {
        return;
      }
      ghost var all := B.Join(inbuf);
      var length := |B.Join(inbuf)|;
      if length == readLen {
        Answer(B.Join(inbuf));
        inbuf := [];
        assert all[..readLen] == all;
      } else if readLen == 0 {
        Answer([]);
      } else if length > readLen {
        var front, back := C.SplitChain(inbuf, readLen);
        inbuf := back;
        assert all[..readLen] + all[readLen..] == all;
        Answer(B.Join(front));
      }
    }

    /** Bytes arrive. */
    method Receive(chunk: seq<seq<nat>>)
      requires Valid() && chunk != [] && |B.Join(inbuf)| + |B.Join(chunk)| < U32
      modifies this
      ensures Valid() && Settled() && received == old(received) + B.Join(chunk) && readLen == old(readLen)
      ensures old(answers) <= answers && |answers| <= |old(answers)| + 1
      ensures !old(readBlocked) ==> answers == old(answers) && !readBlocked
      ensures old(readBlocked) ==>
        (|answers| == |old(answers)| + 1 <==> |old(B.Join(inbuf))| + |B.Join(chunk)| >= readLen)
    {
      B.JoinConcat(inbuf, chunk);
      ghost var all := B.Join(answers) + B.Join(inbuf) + B.Join(chunk);
      inbuf := inbuf + chunk;
      received := received + B.Join(chunk);
      assert B.Join(answers) + B.Join(inbuf) == all;
      CheckRead();
    }

    /** Asks for len bytes, in place of whatever was asked for before. */
    method Read(len: nat)
      requires Valid() && |B.Join(inbuf)| < U32
      modifies this
      ensures Valid() && Settled() && received == old(received) && readLen == len
      ensures !readBlocked <==> old(inbuf) != [] && |old(B.Join(inbuf))| >= len
      ensures !readBlocked ==> answers == old(answers) + [old(B.Join(inbuf))[..len]]
      ensures readBlocked ==> answers == old(answers)
    {
      readBlocked := true;
      readLen := len;
      CheckRead();
    }
  }

  /** On a fresh session even a read of no bytes waits. */
  method EmptyReadWaits() returns (s: TcpSession)
    ensures fresh(s) && s.Valid() && s.readLen == 0 && s.readBlocked && s.answers == []
  {
    s := new TcpSession();
    s.Read(0);
  }

  /** The answers, one after the other, are the stream cut at the lengths asked for. */
  function CutAt(stream: seq<nat>, asked: seq<nat>): seq<seq<nat>> {
    if asked == [] || asked[0] > |stream| then []
    else [stream[..asked[0]]] + CutAt(stream[asked[0]..], asked[1..])
  }

  lemma {:induction false} ReadsAreTheStream(asked: seq<nat>, answers: seq<seq<nat>>, rest: seq<nat>, stream: seq<nat>)
    requires Exact(asked, answers) && B.Join(answers) + rest == stream
    ensures answers == CutAt(stream, asked)
  {
    if asked != [] {
      var n := asked[0];
      assert stream == answers[0] + (B.Join(answers[1..]) + rest);
      assert stream[..n] == answers[0] && stream[n..] == B.Join(answers[1..]) + rest;
      ReadsAreTheStream(asked[1..], answers[1..], rest, stream[n..]);
    }
  }
}
