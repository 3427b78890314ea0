/**
 Sending a response: header bytes from a ring, then a file, over a plain or a TLS connection.  The kernel
 and the TLS library answer each call as they like; `net` and `disk` hold the answers still to come, and
 a connection without further answers would block.
 */
module WriteLoop {
  import opened RingBuffer
  import opened Text

  /** The answer to one call: some bytes moved (none at the end), interrupted, not now, or an error. */
  datatype Io = Moved(limit: nat) | Interrupted | WouldBlock | Failure

  /** The answer to one read of the file, which returns nothing only at its end. */
  datatype DiskIo = Got(limit: nat) | Retry | DiskFailure

  /** How one round of the loop ends. */
  datatype Round = Again | Wait | Done | Fail

  /** How a write event ends: nothing to send, more to send later, all sent, connection broken. */
  datatype Result = Idle | Waiting | Finished | Broken

  /** The counters split the response into what is on the wire and what is still to come. */
  ghost predicate Ledger(all: string, wire: string, unsent: string, haveSend: int, toSend: int) {
    && 0 <= haveSend <= |all| && toSend == |all| - haveSend
    && wire == all[..haveSend] && unsent == all[haveSend..]
  }

  lemma LedgerMove(all: string, wire: string, unsent: string, sent: string, rest: string, haveSend: int, toSend: int)
    requires Ledger(all, wire, unsent, haveSend, toSend) && unsent == sent + rest
    ensures Ledger(all, wire + sent, rest, haveSend + |sent|, toSend - |sent|)
  {
    var h := haveSend;
    assert all == all[..h] + all[h..];
    assert all[h..h + |sent|] == unsent[..|sent|] == sent;
    assert all[h + |sent|..] == unsent[|sent|..] == rest;
  }

  /** Header bytes, staged bytes and the rest of the file. */
  ghost function Pending(contents: string, buf: string, at: nat, file: string, offset: nat): string
    requires at <= |buf| && offset <= |file|
  {
    contents + (buf[at..] + file[offset..])
  }

  lemma HeaderSplit(sent: string, rest: string, file: string)
    ensures (sent + rest) + file == sent + (rest + file)
  {
  }

  /** Taking `n` bytes off a buffer that is followed by others, behind a spent ring. */
  lemma BufferSplit(contents: string, buf: string, at: nat, n: nat, file: string, offset: nat)
    requires contents == "" && at + n <= |buf| && offset <= |file|
    ensures Pending(contents, buf, at, file, offset) == buf[at..at + n] + Pending(contents, buf, at + n, file, offset)
  {
    assert buf[at..] == buf[at..at + n] + buf[at + n..];
  }

  /** A spent ring and a spent staging buffer leave only the rest of the file. */
  lemma OnlyTheRest(contents: string, buf: string, at: nat, rest: string)
    requires contents == "" && at == |buf|
    ensures contents + (buf[at..] + rest) == rest
  {
  }

  /** A piece of the file moved into the spent staging buffer. */
  lemma Restaged(contents: string, buf: string, at: nat, file: string, offset: nat, n: nat)
    requires contents == "" && at == |buf| && offset + n <= |file|
    ensures Pending(contents, file[offset..offset + n], 0, file, offset + n) == Pending(contents, buf, at, file, offset)
  {
    assert file[offset..] == file[offset..offset + n] + file[offset + n..];
  }

  /** Taking `n` bytes off the file, behind a spent ring and without a staging buffer. */
  lemma FileSplit(contents: string, buf: string, at: nat, file: string, offset: nat, n: nat)
    requires contents == "" && at <= |buf| && buf[at..] == "" && offset + n <= |file|
    ensures Pending(contents, buf, at, file, offset) == file[offset..offset + n] + Pending(contents, buf, at, file, offset + n)
  {
    assert file[offset..] == file[offset..offset + n] + file[offset + n..];
  }

  class Response {
    const https: bool
    const file: string
    const chunk: nat            // size of the TLS staging buffer
    const ring: Ring
    var fileOpen: bool
    var fileOffset: nat         // of the next byte to take from the file
    var sendBuf: string         // the file bytes last read, TLS only
    var sendOffset: nat         // of the first of them that is not sent
    var bytesToSend: int
    var bytesHaveSend: int
    var net: seq<Io>
    var disk: seq<DiskIo>
    ghost const all: string     // the response
    ghost var wire: string      // what the peer has been sent
    ghost var last: Io          // the last answer of the network
    ghost var moves: nat        // how many of its answers moved bytes
    ghost var diskFailed: bool

    /** What the file still has to contribute. */
    ghost function FilePart(): string
      reads this`fileOpen, this`fileOffset, this`sendBuf, this`sendOffset
    {
      if fileOpen && sendOffset <= |sendBuf| && fileOffset <= |file| then sendBuf[sendOffset..] + file[fileOffset..] else ""
    }

    ghost function Unsent(): string
      requires ring.Valid()
      reads this`fileOpen, this`fileOffset, this`sendBuf, this`sendOffset, ring, ring.buffer
    {
      ring.Contents() + FilePart()
    }

    lemma UnsentIsPending()
      requires ring.Valid() && fileOpen && sendOffset <= |sendBuf| && fileOffset <= |file|
      ensures Unsent() == Pending(ring.Contents(), sendBuf, sendOffset, file, fileOffset)
    {
    }

    ghost predicate Balanced()
      reads this`fileOpen, this`fileOffset, this`sendBuf, this`sendOffset
      reads this`wire, this`bytesToSend, this`bytesHaveSend, ring, ring.buffer
    {
      && ring.Valid() && chunk > 0 && fileOffset <= |file| && sendOffset <= |sendBuf| && (!https ==> sendBuf == "")
      && Ledger(all, wire, Unsent(), bytesHaveSend, bytesToSend)
    }

    /** The account for the header bytes, staged bytes and file bytes that are left. */
    lemma Rebalanced(contents: string, rest: string)
      requires ring.Valid() && chunk > 0 && fileOpen && fileOffset <= |file| && sendOffset <= |sendBuf| && (!https ==> sendBuf == "")
      requires contents == ring.Contents() && rest == Pending(contents, sendBuf, sendOffset, file, fileOffset)
      requires Ledger(all, wire, rest, bytesHaveSend, bytesToSend)
      ensures Balanced()
    {
      UnsentIsPending();
    }

    /** Besides, every answer that moved bytes moved at least one. */
    ghost predicate Valid()
      reads this, ring, ring.buffer
    {
      Balanced() && moves <= bytesHaveSend && !diskFailed
    }

    /**
     A response as process_write leaves it, with the file to follow, if one is open.  The length is kept in an int,
     so it accounts for the whole response exactly up to 2^31 - 1 bytes.
     */
    constructor (capacity: nat, header: string, fileOpen: bool, file: string, https: bool, chunk: nat,
                 net: seq<Io>, disk: seq<DiskIo>)
      requires 0 < capacity && |header| <= capacity && chunk > 0 && (!fileOpen ==> file == "")
      ensures Valid() <==> |header| + |file| < 0x8000_0000
      ensures fresh(ring) && fresh(ring.buffer) && wire == "" && moves == 0 && all == header + file
      ensures this.net == net && this.disk == disk && bytesToSend == Int32(|header| + |file|)
    {
      var r := new Ring(capacity);
      var n := r.Append(header);
      ring := r;
      this.https, this.file, this.chunk, this.fileOpen := https, file, chunk, fileOpen;
      fileOffset, sendBuf, sendOffset, bytesToSend, bytesHaveSend := 0, "", 0, Int32(|header| + |file|), 0;
      this.net, this.disk := net, disk;
      all, wire, last, moves, diskFailed := header + file, "", Interrupted, 0, false;
      new;
      assert ring.Contents() == [] + header == header;
      assert FilePart() == file;
      FitsInt32(|header| + |file|);
    }

    /** The next answer of the network. */
    method NextNet() returns (io: Io)
      modifies this`net, this`last, this`moves
      ensures if old(net) == [] then io == WouldBlock && net == [] else io == old(net)[0] && net == old(net)[1..]
      ensures last == io && moves == old(moves) + if io.Moved? && io.limit > 0 then 1 else 0
    {
      io := WouldBlock;
      if net != [] {
        io := net[0];
        net := net[1..];
      }
      last := io;
      if io.Moved? && io.limit > 0 { moves := moves + 1; }
    }

    /** The next answer of the disk. */
    method NextDisk() returns (io: DiskIo)
      modifies this`disk, this`diskFailed
      ensures old(disk) == [] ==> io == Got(chunk) && disk == []
      ensures old(disk) != [] ==> io == old(disk)[0] && disk == old(disk)[1..]
      ensures diskFailed == (old(diskFailed) || io == DiskFailure)
    {
      if disk == [] { return Got(chunk); }
      io := disk[0];
      disk := disk[1..];
      if io == DiskFailure { diskFailed := true; }
    }

    ghost predicate Blocked()
      reads this`last
    {
      last == WouldBlock
    }

    ghost predicate Lost()
      reads this`last, this`diskFailed
    {
      diskFailed || last == Failure || last == Moved(0)
    }

    /** The wire holds the first bytes of the response, and the counters say how many. */
    ghost predicate OnWire()
      reads this`wire, this`bytesToSend, this`bytesHaveSend
    {
      && 0 <= bytesHaveSend <= |all| && bytesToSend == |all| - bytesHaveSend
      && wire == all[..bytesHaveSend]
    }

    /** What each end of a round means. */
    ghost predicate Settled(round: Round)
      reads this, ring, ring.buffer
    {
      match round
      case Again => Valid() && bytesToSend > 0
      case Wait => Valid() && bytesToSend > 0 && Blocked()
      case Done => Valid() && bytesToSend == 0
      case Fail => OnWire() && bytesToSend > 0 && !fileOpen && Lost()
    }

    /** With the header gone, what is unsent is of the file. */
    lemma OnlyFileLeft()
      requires Balanced() && ring.size == 0
      ensures Unsent() == FilePart() && |FilePart()| == bytesToSend
    {
      assert ring.Contents() == [];
    }

    /** The bookkeeping behind every call that moved bytes. */
    method Book(n: nat, ghost sent: string, ghost unsent: string, ghost rest: string)
      requires Ledger(all, wire, unsent, bytesHaveSend, bytesToSend) && unsent == sent + rest && |sent| == n
      modifies this`bytesToSend, this`bytesHaveSend, this`wire
      ensures Ledger(all, wire, rest, bytesHaveSend, bytesToSend) && bytesHaveSend == old(bytesHaveSend) + n
    {
      LedgerMove(all, wire, unsent, sent, rest, bytesHaveSend, bytesToSend);
      wire := wire + sent;
      bytesHaveSend := bytesHaveSend + n;
      bytesToSend := bytesToSend - n;
    }

    /** ring_send and the bookkeeping behind it. */
    method SendHeader(limit: nat)
      requires Balanced() && ring.size > 0 && limit > 0
      modifies this`bytesToSend, this`bytesHaveSend, this`wire, ring
      ensures Balanced() && old(bytesHaveSend) < bytesHaveSend && ring.buffer == old(ring.buffer)
    {
      ghost var unsent := Unsent();
      var sent := ring.Send(limit);
      HeaderSplit(sent, ring.Contents(), FilePart());
      Book(|sent|, sent, unsent, Unsent());
    }

    /** Closes the file after a fatal answer. */
    method GiveUp() returns (round: Round)
      requires Balanced() && bytesToSend > 0 && Lost()
      modifies this`fileOpen
      ensures round == Fail && Settled(Fail)
    {
      fileOpen := false;
      return Fail;
    }

    /** Bytes were moved: the response is through, or there is more. */
    method AfterMove() returns (round: Round)
      requires Balanced() && moves <= bytesHaveSend && !diskFailed
      ensures Settled(round) && (round.Done? || round.Again?)
    {
      return if bytesToSend <= 0 then Done else Again;
    }

    /** Nothing was moved: try again, wait, or give up. */
    method NotNow(io: Io) returns (round: Round)
      requires Balanced() && bytesToSend > 0 && !diskFailed && moves <= bytesHaveSend
      requires io == last && (io.Moved? ==> io.limit == 0)
      modifies this`fileOpen
      ensures Settled(round) && (round.Again? ==> io == Interrupted && fileOpen == old(fileOpen))
    {
      if io == Interrupted { return Again; }
      if io == WouldBlock { return Wait; }
      round := GiveUp();
    }

    /** One round on the header bytes. */
    method HeaderRound() returns (round: Round)
      requires Valid() && bytesToSend > 0 && ring.size > 0
      modifies this`net, this`last, this`moves, this`fileOpen, this`bytesToSend, this`bytesHaveSend, this`wire, ring
      ensures Settled(round) && old(bytesHaveSend) <= bytesHaveSend && ring.buffer == old(ring.buffer)
      ensures |net| <= old(|net|) && (old(net) != [] ==> |net| < old(|net|))
      ensures round.Again? ==> |net| < old(|net|)
    {
      var io := NextNet();
      if io.Moved? && io.limit > 0 {
        SendHeader(io.limit);
        round := AfterMove();
      } else {
        round := NotNow(io);
      }
    }

    // ---------- The file over a plain connection ----------

    /** sendfile and the bookkeeping behind it; it moves nothing only at the end of the file. */
    method SendFile(limit: nat) returns (n: nat)
      requires Balanced() && !https && ring.size == 0 && fileOpen && bytesToSend > 0
      modifies this`bytesToSend, this`bytesHaveSend, this`wire, this`fileOffset
      ensures Balanced() && n > 0 && old(bytesHaveSend) < bytesHaveSend
    {
      OnlyFileLeft();
      var most := if bytesToSend < |file| - fileOffset then bytesToSend else |file| - fileOffset;
      n := if 0 < limit < most then limit else if limit == 0 && most > 0 then 1 else most;
      TakeFromFile(n);
    }

    method TakeFromFile(n: nat)
      requires Balanced() && !https && ring.size == 0 && fileOpen && fileOffset + n <= |file|
      modifies this`bytesToSend, this`bytesHaveSend, this`wire, this`fileOffset
      ensures Balanced() && bytesHaveSend == old(bytesHaveSend) + n
    {
      ghost var at, contents := fileOffset, ring.Contents();
      ghost var rest := Pending(contents, sendBuf, sendOffset, file, at + n);
      UnsentIsPending();
      FileSplit(contents, sendBuf, sendOffset, file, at, n);
      Book(n, file[at..at + n], Unsent(), rest);
      fileOffset := fileOffset + n;
      Rebalanced(contents, rest);
    }

    method PlainRound() returns (round: Round)
      requires Valid() && bytesToSend > 0 && !https && ring.size == 0 && fileOpen
      modifies this`net, this`last, this`moves, this`fileOpen, this`bytesToSend, this`bytesHaveSend, this`wire, this`fileOffset
      ensures Settled(round) && old(bytesHaveSend) <= bytesHaveSend
      ensures |net| <= old(|net|) && (old(net) != [] ==> |net| < old(|net|))
      ensures round.Again? ==> |net| < old(|net|)
    {
      var io := NextNet();
      if io.Moved? {
        var n := SendFile(io.limit);
        if n == 0 { assert false; }   // the end of the file is not reached before the last byte is sent
        round := AfterMove();
      } else {
        round := NotNow(io);
      }
    }

    // ---------- The file over TLS ----------

    /** Reads the next piece of the file into the staging buffer; it gets nothing only at the end of the file. */
    method Stage(limit: nat) returns (n: nat)
      requires Balanced() && fileOpen && https && ring.size == 0 && sendOffset == |sendBuf| && bytesToSend > 0
      modifies this`sendBuf, this`sendOffset, this`fileOffset
      ensures Balanced() && n > 0 && sendOffset < |sendBuf|
    {
      OnlyFileLeft();
      var most := if chunk < |file| - fileOffset then chunk else |file| - fileOffset;
      n := if limit + 1 < most then limit + 1 else most;
      Restage(n);
    }

    method Restage(n: nat)
      requires Balanced() && fileOpen && https && ring.size == 0 && sendOffset == |sendBuf| && fileOffset + n <= |file|
      modifies this`sendBuf, this`sendOffset, this`fileOffset
      ensures Balanced() && sendOffset == 0 && |sendBuf| == n
    {
      ghost var contents := ring.Contents();
      UnsentIsPending();
      Restaged(contents, sendBuf, sendOffset, file, fileOffset, n);
      sendBuf, sendOffset := file[fileOffset..fileOffset + n], 0;
      fileOffset := fileOffset + n;
      Rebalanced(contents, Pending(contents, sendBuf, 0, file, fileOffset));
    }

    /** One SSL_write of staged bytes. */
    method SendStaged(limit: nat)
      requires Balanced() && fileOpen && https && ring.size == 0 && sendOffset < |sendBuf| && limit > 0
      modifies this`sendBuf, this`sendOffset, this`bytesToSend, this`bytesHaveSend, this`wire
      ensures Balanced() && old(bytesHaveSend) < bytesHaveSend
    {
      var most := |sendBuf| - sendOffset;
      TakeStaged(if limit < most then limit else most);
      if sendOffset >= |sendBuf| { Unstage(); }
    }

    method TakeStaged(n: nat)
      requires Balanced() && fileOpen && https && ring.size == 0 && sendOffset + n <= |sendBuf|
      modifies this`sendOffset, this`bytesToSend, this`bytesHaveSend, this`wire
      ensures Balanced() && bytesHaveSend == old(bytesHaveSend) + n
    {
      ghost var at, contents := sendOffset, ring.Contents();
      ghost var rest := Pending(contents, sendBuf, at + n, file, fileOffset);
      UnsentIsPending();
      BufferSplit(contents, sendBuf, at, n, file, fileOffset);
      Book(n, sendBuf[at..at + n], Unsent(), rest);
      sendOffset := sendOffset + n;
      Rebalanced(contents, rest);
    }

    method Unstage()
      requires Balanced() && fileOpen && https && ring.size == 0 && sendOffset == |sendBuf|
      modifies this`sendBuf, this`sendOffset
      ensures Balanced()
    {
      OnlyTheRest(ring.Contents(), sendBuf, sendOffset, file[fileOffset..]);
      sendBuf, sendOffset := "", 0;
      OnlyTheRest(ring.Contents(), sendBuf, sendOffset, file[fileOffset..]);
    }

    method TlsSendRound() returns (round: Round)
      requires Valid() && bytesToSend > 0 && https && ring.size == 0 && fileOpen && sendOffset < |sendBuf|
      modifies this`net, this`last, this`moves, this`fileOpen, this`sendBuf, this`sendOffset
      modifies this`bytesToSend, this`bytesHaveSend, this`wire
      ensures Settled(round) && old(bytesHaveSend) <= bytesHaveSend
      ensures |net| <= old(|net|) && (old(net) != [] ==> |net| < old(|net|))
      ensures round.Again? ==> fileOpen && |net| < old(|net|)
    {
      var io := NextNet();
      if io.Moved? && io.limit > 0 {
        SendStaged(io.limit);
        round := AfterMove();
      } else {
        round := NotNow(io);
      }
    }

    /** One round of send_file_over_tls: stage file bytes if none are left, then send some. */
    method TlsRound() returns (round: Round)
      requires Valid() && bytesToSend > 0 && https && ring.size == 0 && fileOpen
      modifies this`net, this`last, this`moves, this`disk, this`diskFailed, this`fileOpen, this`fileOffset, this`sendBuf, this`sendOffset
      modifies this`bytesToSend, this`bytesHaveSend, this`wire
      ensures Settled(round) && old(bytesHaveSend) <= bytesHaveSend
      ensures |net| <= old(|net|) && (round.Wait? && old(net) != [] ==> |net| < old(|net|))
      ensures round.Again? ==> fileOpen && |net| + |disk| < old(|net| + |disk|)
    {
      if sendOffset >= |sendBuf| {
        var got := NextDisk();
        if got == Retry { return Again; }
        if got == DiskFailure { round := GiveUp(); return; }
        var n := Stage(got.limit);
        if n == 0 { assert false; }   // the end of the file is not reached before the last byte is sent
      }
      round := TlsSendRound();
    }

    method SendFileOverTls() returns (round: Round)
      requires Valid() && bytesToSend > 0 && https && ring.size == 0 && fileOpen
      modifies this`net, this`last, this`moves, this`disk, this`diskFailed, this`fileOpen, this`fileOffset, this`sendBuf, this`sendOffset
      modifies this`bytesToSend, this`bytesHaveSend, this`wire
      ensures !round.Again? && Settled(round) && old(bytesHaveSend) <= bytesHaveSend
      ensures |net| <= old(|net|) && (round.Wait? && old(net) != [] ==> |net| < old(|net|))
    {
      round := Again;
      while round.Again?
        invariant Settled(round) && old(bytesHaveSend) <= bytesHaveSend && (round.Again? ==> fileOpen)
        invariant |net| <= old(|net|) && (round.Wait? && old(net) != [] ==> |net| < old(|net|))
        decreases if round.Again? then |net| + |disk| + 1 else 0
      {
        round := TlsRound();
      }
    }

    // ---------- A write event ----------

    /** What a write event reports. */
    ghost predicate Reported(r: Result)
      reads this, ring, ring.buffer
    {
      && OnWire()
      && match r
         case Idle => wire == all
         case Waiting => Valid() && bytesToSend > 0 && Blocked()
         case Finished => wire == all && !fileOpen
         case Broken => bytesToSend > 0 && !fileOpen && Lost()
    }

    /**
     One write event.  The wire holds a prefix of the response at its end; the cycle finishes exactly when
     the whole response is on the wire, waits only when the network blocks, and breaks only on an error.
     */
    method Write() returns (r: Result)
      requires Valid()
      modifies this, ring
      ensures Reported(r) && old(bytesHaveSend) <= bytesHaveSend && ring.buffer == old(ring.buffer)
      ensures r.Idle? <==> old(bytesToSend) == 0
      ensures r.Waiting? && old(net) != [] ==> |net| < old(|net|)
    {
      if bytesToSend == 0 { return Idle; }
      var round := Again;
      while round.Again?
        invariant Settled(round) && old(bytesHaveSend) <= bytesHaveSend && ring.buffer == old(ring.buffer)
        invariant |net| <= old(|net|) && (round.Wait? && old(net) != [] ==> |net| < old(|net|))
        decreases if round.Again? then |net| + |disk| + 1 else 0
      {
        if ring.size > 0 {
          round := HeaderRound();
        } else {
          OnlyFileLeft();
          if https { round := SendFileOverTls(); } else { round := PlainRound(); }
        }
      }
      match round
      case Wait => return Waiting;
      case Fail => return Broken;
      case Done => fileOpen := false; return Finished;
    }

    /** A response over any number of write events, each with the answers of its calls. */
    method Deliver(events: seq<seq<Io>>) returns (r: Result)
      requires Valid()
      modifies this, ring
      ensures Reported(r) && old(bytesHaveSend) <= bytesHaveSend
      ensures r.Waiting? ==> moves < |all|
    {
      r := Write();
      var i := 0;
      while i < |events| && r.Waiting?
        invariant i <= |events| && Reported(r) && old(bytesHaveSend) <= bytesHaveSend && ring.buffer == old(ring.buffer)
      {
        net := events[i];
        r := Write();
        i := i + 1;
      }
    }
  }
}
