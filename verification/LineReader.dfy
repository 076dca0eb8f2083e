/**
 The reader of several descriptors: per descriptor a buffer that is filled, scanned and shifted in place.
 */
module LineReader {
  import opened Lines

  /**
   What poll and read answer for one descriptor. A successful read returns the next bytes the other end
   sent, as many of them as asked for, as there are and as the answer says, but at least one; when the
   other end has sent everything, it returns none.
   */
  datatype ReadResult = Data(atMost: nat) | Interrupted | ReadError
  datatype Revent = Idle | HungUp | Readable(result: ReadResult)
  datatype Round = PollInterrupted | PollError | Ready(revents: seq<Revent>)

  /** A C string: the bytes up to the first NUL. */
  function CString(s: seq<Byte>): (t: seq<Byte>)
    ensures t <= s
  {
    if s == [] || s[0] == NUL then [] else [s[0]] + CString(s[1..])
  }

  lemma {:induction false} CStringOf(run: seq<Byte>, rest: seq<Byte>)
    requires NulFree(run) && rest != [] && rest[0] == NUL
    ensures CString(run + rest) == run
  {
    if run == [] {
      assert run + rest == rest;
    } else {
      assert (run + rest)[1..] == run[1..] + rest;
      CStringOf(run[1..], rest);
    }
  }

  /**
   What was delivered and what is buffered, against the streaming form. A full buffer is flushed only
   when more data shows up, and the streaming form keeps the full line open until it sees that data.
   */
  predicate InStep(delivered: seq<Line>, buffered: Line, a: Acc) {
    || a == Acc(delivered, buffered)
    || (buffered == [] && |a.cur| == LINE_MAX && delivered == a.lines + [a.cur])
  }

  lemma InStepFeeds(delivered: seq<Line>, buffered: Line, a: Acc, s: seq<Byte>)
    requires InStep(delivered, buffered, a) && s != []
    ensures FeedAll(a, s) == FeedAll(Acc(delivered, buffered), s)
  {
    assert Feed(a, s[0]) == Feed(Acc(delivered, buffered), s[0]);
  }

  /** The lines of everything consumed: those delivered, and what is still buffered. */
  lemma LastLine(delivered: seq<Line>, buffered: Line, consumed: seq<Byte>)
    requires InStep(delivered, buffered, Streamed(consumed))
    ensures LinesOf(consumed) == if buffered == [] then delivered else delivered + [buffered]
  {
    StreamingIsDeclarative([], consumed);
    assert [] + LinesOf(consumed) == LinesOf(consumed);
  }

  /**
   How a descriptor that is not at its end answers an event: data is read, unless the buffer is full and
   is emptied first; what was read and is no longer buffered only grows.
   */
  predicate Responded(ev: Revent, pos: nat, used: nat, pos': nat, used': nat) {
    && pos <= pos' && pos - used <= pos' - used'
    && if ev.Readable? && used == LINE_MAX then pos' == pos && used' == 0
       else if ev.Readable? && ev.result.Data? then pos < pos'
       else pos' == pos && used' == used
  }

  /** Everything consumed so far, through the streaming form. */
  function Streamed(consumed: seq<Byte>): Acc {
    FeedAll(Acc([], []), consumed)
  }

  class ReadState {
    const stream: seq<Byte>         // everything the other end sends before it closes
    const buf: array<Byte>
    var used: nat
    var eof: bool
    var delivered: seq<Line>        // the lines the callback received
    var pos: nat                    // how much of the stream was read

    ghost function Consumed(): seq<Byte>
      reads this
      requires pos <= |stream|
    {
      stream[..pos]
    }

    ghost predicate Valid()
      reads this, buf
    {
      && buf.Length == BUFFER_SIZE && used <= LINE_MAX && used <= pos <= |stream|
      && (NulFree(Consumed()) ==>
            if eof then delivered == LinesOf(Consumed())
            else NulFree(buf[..used]) && NoEol(buf[..used]) && InStep(delivered, buf[..used], Streamed(Consumed())))
    }

    constructor (stream: seq<Byte>)
      ensures Valid() && fresh(buf) && !eof && used == 0 && delivered == [] && pos == 0 && this.stream == stream
    {
      this.stream := stream;
      buf := new Byte[BUFFER_SIZE](_ => 0);
      used, eof, delivered, pos := 0, false, [], 0;
    }

    /** Terminates the buffered bytes and hands them to the callback. */
    method Deliver(n: nat)
      requires buf.Length == BUFFER_SIZE && n < BUFFER_SIZE
      modifies this`delivered, buf
      ensures buf[..] == old(buf[..])[n := NUL]
      ensures delivered == old(delivered) + [CString(buf[..])]
      ensures NulFree(old(buf[..n])) ==> delivered == old(delivered) + [old(buf[..n])]
    {
      buf[n] := NUL;
      delivered := delivered + [CString(buf[..])];
      if NulFree(buf[..n]) {
        CStringOf(buf[..n], buf[n..]);
        assert buf[..n] + buf[n..] == buf[..];
      }
    }

    /** End of file or hang-up: what is left in the buffer is the last line. */
    method End()
      requires Valid() && !eof
      modifies this`used, this`eof, this`delivered, buf
      ensures Valid() && eof
    {
      ghost var last := buf[..used];
      if NulFree(Consumed()) { LastLine(delivered, last, Consumed()); }
      assert last != [] ==> last[0] == buf[0];
      eof := true;
      buf[used] := NUL;
      assert buf[..used] == last;
      if buf[0] != NUL { Deliver(used); }
      used := 0;
    }

    /** The buffer is full and there is more to read: its content is delivered as a line. */
    method Flush()
      requires Valid() && !eof && used == LINE_MAX
      modifies this`used, this`delivered, buf
      ensures Valid() && used == 0 && |delivered| == |old(delivered)| + 1
      ensures NulFree(old(buf[..used])) ==> delivered == old(delivered) + [old(buf[..used])]
    {
      ghost var full := buf[..used];
      Deliver(used);
      used := 0;
      if NulFree(Consumed()) {
        assert buf[..used] == [];
        assert Streamed(Consumed()).cur == full;
      }
    }

    /** read(2) puts the next bytes of the stream behind the buffered ones. */
    method Fill(n: nat)
      requires buf.Length == BUFFER_SIZE && used + n <= LINE_MAX && pos + n <= |stream|
      modifies this`used, this`pos, buf
      ensures used == old(used) + n && pos == old(pos) + n
      ensures buf[..used] == old(buf[..used]) + stream[old(pos)..pos]
    {
      forall i | 0 <= i < n {
        buf[used + i] := stream[pos + i];
      }
      used, pos := used + n, pos + n;
    }

    /** The position of the first line end in the buffer, or used when there is none. */
    method FirstEol() returns (j: nat)
      requires buf.Length == BUFFER_SIZE && used <= LINE_MAX
      ensures j <= used && NoEol(buf[..j]) && (j < used ==> Eol(buf[j]))
    {
      j := 0;
      while j < used
        invariant j <= used && NoEol(buf[..j])
      {
        if Eol(buf[j]) { return; }
        j := j + 1;
      }
    }

    /** Delivers the complete lines in the buffer and keeps the rest. */
    method Scan()
      requires buf.Length == BUFFER_SIZE && used <= LINE_MAX
      modifies this`used, this`delivered, buf
      ensures used <= old(used)
      ensures NulFree(old(buf[..used])) ==>
                && NulFree(buf[..used]) && NoEol(buf[..used])
                && Acc(delivered, buf[..used]) == FeedAll(Acc(old(delivered), []), old(buf[..used]))
    {
      ghost var free, goal := NulFree(buf[..used]), FeedAll(Acc(delivered, []), buf[..used]);
      while true
        invariant used <= old(used)
        invariant free ==> NulFree(buf[..used]) && FeedAll(Acc(delivered, []), buf[..used]) == goal
        decreases used
      {
        var j := FirstEol();
        ghost var all, run := buf[..used], buf[..j];
        if j == used {
          FeedRun(delivered, [], run);
          assert all == run && [] + run == run;
          break;
        }
        ghost var rest := buf[j + 1..used];
        assert all == run + [buf[j]] + rest;
        OneLine(delivered, run, buf[j], rest);
        TakeLine(j);
      }
    }

    /** The bytes before the line end at j are delivered, unless there are none; the rest moves to the front. */
    method TakeLine(j: nat)
      requires buf.Length == BUFFER_SIZE && j < used <= LINE_MAX
      modifies this`used, this`delivered, buf
      ensures used == old(used) - (j + 1) && buf[..used] == old(buf[j + 1..used])
      ensures NulFree(old(buf[..j])) ==>
                delivered == if j == 0 then old(delivered) else old(delivered) + [old(buf[..j])]
    {
      ghost var rest := buf[j + 1..used];
      if j != 0 { Deliver(j); } else { buf[j] := NUL; }
      assert buf[j + 1..used] == rest;
      used := used - (j + 1);
      forall i | 0 <= i < used {
        buf[i] := buf[i + j + 1];
      }
    }

    method Receive(n: nat)
      requires Valid() && !eof && n > 0 && used + n <= LINE_MAX && pos + n <= |stream|
      modifies this`used, this`delivered, this`pos, buf
      ensures Valid() && !eof && pos == old(pos) + n && used <= old(used) + n
    {
      ghost var buffered, lines, before, bytes := buf[..used], delivered, Consumed(), stream[pos..pos + n];
      assert stream[..pos + n] == before + bytes;
      if NulFree(before + bytes) {
        assert NulFree(before) by { assert forall i :: 0 <= i < |before| ==> (before + bytes)[i] == before[i]; }
        assert NulFree(bytes) by { assert forall i :: 0 <= i < |bytes| ==> (before + bytes)[|before| + i] == bytes[i]; }
        Received(lines, buffered, before, bytes);
      }
      Fill(n);
      Scan();
    }

    /** One descriptor in one round. True when the read failed. */
    method Handle(ev: Revent) returns (failed: bool)
      requires Valid() && !eof
      modifies this, buf
      ensures Valid() && old(pos) <= pos
      ensures failed <==> ev == Readable(ReadError) && old(used) != LINE_MAX
      ensures eof <==> ev == HungUp || (ev.Readable? && ev.result.Data? && old(used) != LINE_MAX && old(pos) == |stream|)
      ensures eof || Responded(ev, old(pos), old(used), pos, used)
      ensures ev.Readable? && old(used) == LINE_MAX ==>
                && used == 0 && pos == old(pos) && |delivered| == |old(delivered)| + 1
                && (NulFree(old(buf[..used])) ==> delivered == old(delivered) + [old(buf[..used])])
      ensures ev.Idle? || (ev.Readable? && old(used) != LINE_MAX && !ev.result.Data?) ==> delivered == old(delivered)
    {
      failed := false;
      match ev
      case Idle =>
      case HungUp => End();
      case Readable(result) =>
        var maxToRead := buf.Length - used - 1;
        if maxToRead == 0 {
          Flush();
          return;
        }
        match result {
          case Interrupted =>
          case ReadError => failed := true;
          case Data(atMost) =>
            if pos == |stream| {
              End();
            } else {
              Receive(Min(Min(maxToRead, |stream| - pos), if atMost == 0 then 1 else atMost));
            }
        }
    }
  }

  function Min(a: nat, b: nat): nat {
    if a <= b then a else b
  }

  lemma OneLine(lines: seq<Line>, run: seq<Byte>, end: Byte, rest: seq<Byte>)
    requires NoEol(run) && Eol(end) && |run| <= LINE_MAX
    ensures FeedAll(Acc(lines, []), run + [end] + rest) == FeedAll(Acc(if run == [] then lines else lines + [run], []), rest)
  {
    FeedAllConcat(Acc(lines, []), run + [end], rest);
    FeedAllConcat(Acc(lines, []), run, [end]);
    FeedRun(lines, [], run);
    assert [] + run == run;
    assert FeedAll(Acc(lines, run), [end]) == FeedAll(Feed(Acc(lines, run), end), []);
  }

  lemma Received(lines: seq<Line>, buffered: Line, consumed: seq<Byte>, bytes: seq<Byte>)
    requires NoEol(buffered) && |buffered| <= LINE_MAX && bytes != [] && InStep(lines, buffered, Streamed(consumed))
    ensures FeedAll(Acc(lines, []), buffered + bytes) == Streamed(consumed + bytes)
  {
    FeedAllConcat(Acc([], []), consumed, bytes);
    InStepFeeds(lines, buffered, Streamed(consumed), bytes);
    FeedRun(lines, [], buffered);
    assert [] + buffered == buffered;
    FeedAllConcat(Acc(lines, []), buffered, bytes);
  }

  // ---------------------------------------------------------------------------------------------
  // All descriptors
  // ---------------------------------------------------------------------------------------------

  /** The states are valid and share no memory. */
  ghost predicate AllValid(states: seq<ReadState>)
    reads states, set s | s in states :: s.buf
  {
    && (forall i :: 0 <= i < |states| ==> states[i].Valid())
    && (forall i, j :: 0 <= i < j < |states| ==> states[i] != states[j] && states[i].buf != states[j].buf)
  }

  /** How the reading ended: 0, -1, or not within the given rounds. */
  datatype Result = Returned(retval: int) | Polling

  method NewStates(streams: seq<seq<Byte>>) returns (states: seq<ReadState>)
    ensures |states| == |streams| && AllValid(states)
    ensures forall i :: 0 <= i < |states| ==>
              fresh(states[i]) && fresh(states[i].buf) && states[i].stream == streams[i] && !states[i].eof && states[i].pos == 0 && states[i].used == 0
  {
    hide LinesOf, Streamed, InStep, NulFree;
    states := [];
    while |states| < |streams|
      invariant |states| <= |streams| && AllValid(states)
      invariant forall i :: 0 <= i < |states| ==>
                  fresh(states[i]) && fresh(states[i].buf) && states[i].stream == streams[i] && !states[i].eof && states[i].pos == 0 && states[i].used == 0
    {
      var s := new ReadState(streams[|states|]);
      states := states + [s];
    }
  }

  /** One round in the course of the reading: no report goes unanswered. */
  method Serve(fds: seq<int>, states: seq<ReadState>, revents: seq<Revent>, ghost past: seq<Round>) returns (failed: bool, done: bool)
    requires |states| == |fds| && AllValid(states) && AllServed(fds, past, states)
    modifies states, set s | s in states :: s.buf
    ensures AllValid(states) && (HungUp !in revents && old(Drained(states)) ==> Drained(states))
    ensures failed ==> Readable(ReadError) in revents
    ensures !failed ==> AllServed(fds, past + [Ready(revents)], states)
    ensures !done ==> exists i :: 0 <= i < |fds| && fds[i] >= 0 && !states[i].eof
    ensures done && !failed ==> forall i :: 0 <= i < |fds| && fds[i] >= 0 ==> states[i].eof
  {
    hide ReadState.Valid, Responded, Served, Drained;
    failed, done := HandleRound(fds, states, revents);
    if !failed {
      forall j | 0 <= j < |fds| && fds[j] >= 0 && !states[j].eof
        ensures Served(past + [Ready(revents)], j, states[j].pos, states[j].used)
      {
        UsedWasRead(states, j);
        Answered(past, revents, j, old(states[j].pos), old(states[j].used), states[j].pos, states[j].used);
      }
    }
  }

  /**
   Reads the descriptors until all are at their end. A negative descriptor is ignored. However the
   bytes come in and however the descriptors interleave: when 0 is returned, every descriptor whose
   stream was read to its end and holds no NUL has delivered exactly the lines of that stream; and at
   any moment the lines delivered are those of what was read, short of what is still buffered. Of the
   rounds, n were used. The first failing poll ends the reading with -1, and so does a failed read. As long
   as no such thing happened, data was read off a descriptor nearly as often as it was reported, so the
   reading does end; and a read that would have failed was reported only when the buffer was full.
   */
  method ReadLines(fds: seq<int>, streams: seq<seq<Byte>>, rounds: seq<Round>)
      returns (r: Result, states: seq<ReadState>, ghost n: nat)
    requires |streams| == |fds|
    ensures |states| == |fds| && AllValid(states) && forall i :: 0 <= i < |fds| ==> states[i].stream == streams[i]
    ensures forall i :: 0 <= i < |fds| && NulFree(states[i].Consumed()) ==>
              if states[i].eof then states[i].delivered == LinesOf(states[i].Consumed())
              else InStep(states[i].delivered, states[i].buf[..states[i].used], Streamed(states[i].Consumed()))
    ensures r == Returned(0) ==>
              forall i :: 0 <= i < |fds| && fds[i] >= 0 ==>
                && states[i].eof
                && (states[i].pos == |streams[i]| && NulFree(streams[i]) ==> states[i].delivered == LinesOf(streams[i]))
    ensures r == Returned(0) && NoHangUp(rounds) ==> forall i :: 0 <= i < |fds| && fds[i] >= 0 ==> states[i].pos == |streams[i]|
    ensures n <= |rounds| && (r == Polling ==> n == |rounds|) && (r.Returned? ==> n > 0 && (r.retval == 0 || r.retval == -1))
    ensures r == Returned(-1) ==> Fails(rounds[n - 1])
    ensures forall k :: 0 <= k < n && rounds[k] == PollError ==> r == Returned(-1) && k == n - 1
    ensures r != Returned(-1) ==> forall i :: 0 <= i < |fds| && fds[i] >= 0 && !states[i].eof ==>
              && DataReports(rounds[..n], i) <= 2 * states[i].pos
              && LINE_MAX * ErrorReports(rounds[..n], i) <= states[i].pos
    ensures r == Polling ==>
              || (exists i :: 0 <= i < |fds| && fds[i] >= 0 && !states[i].eof)
              || (forall k :: 0 <= k < |rounds| ==> rounds[k] == PollInterrupted)
  {
    hide LinesOf, Streamed, InStep, NulFree, Fails, Responded, DataReports, ErrorReports, AllValid, ReadState.Valid;
    states := NewStates(streams);
    n := 0;
    NoReports();
    for k := 0 to |rounds|
      invariant AllValid(states)
      invariant forall i :: 0 <= i < |states| ==> fresh(states[i]) && fresh(states[i].buf)
      invariant NoHangUp(rounds) ==> Drained(states)
      invariant (exists i :: 0 <= i < |fds| && fds[i] >= 0 && !states[i].eof) || (forall j :: 0 <= j < k ==> rounds[j] == PollInterrupted)
      invariant n == k && forall j :: 0 <= j < k ==> rounds[j] != PollError
      invariant AllServed(fds, rounds[..k], states)
    {
      n := n + 1;
      assert rounds[..k + 1] == rounds[..k] + [rounds[k]];
      match rounds[k]
      case PollInterrupted =>
        forall i | 0 <= i < |fds| && fds[i] >= 0 && !states[i].eof ensures Served(rounds[..n], i, states[i].pos, states[i].used) {
          Unanswered(rounds[..k], i, states[i].pos, states[i].used);
        }
      case PollError =>
        PollErrorFails();
        AllDelivered(states);
        return Returned(-1), states, n;
      case Ready(revents) =>
        var failed, done := Serve(fds, states, revents, rounds[..k]);
        if failed {
          ReadErrorFails(rounds[k]);
          AllDelivered(states);
          return Returned(-1), states, n;
        }
        if done {
          AllDelivered(states);
          assert forall i :: 0 <= i < |fds| ==> states[i].stream[..|states[i].stream|] == states[i].stream;
          return Returned(0), states, n;
        }
    }
    assert rounds[..n] == rounds;
    AllDelivered(states);
    return Polling, states, n;
  }

  /** No descriptor reports a hang-up or an error while it may still hold data. */
  predicate NoHangUp(rounds: seq<Round>) {
    forall k :: 0 <= k < |rounds| && rounds[k].Ready? ==> HungUp !in rounds[k].revents
  }

  /** The round ends the reading with an error: poll failed, or perhaps a read. */
  predicate Fails(round: Round) {
    round == PollError || (round.Ready? && Readable(ReadError) in round.revents)
  }

  lemma PollErrorFails()
    ensures Fails(PollError)
  {}

  lemma ReadErrorFails(round: Round)
    requires round.Ready? && Readable(ReadError) in round.revents
    ensures Fails(round)
  {}

  /** What poll and read answer for descriptor i; nothing when they do not mention it. */
  function EventOf(revents: seq<Revent>, i: nat): Revent {
    if i < |revents| then revents[i] else Idle
  }

  /** How many of the rounds report data on descriptor i. */
  function DataReports(rounds: seq<Round>, i: nat): nat {
    if rounds == [] then 0
    else
      var last := rounds[|rounds| - 1];
      var ev := if last.Ready? then EventOf(last.revents, i) else Idle;
      DataReports(rounds[..|rounds| - 1], i) + if ev.Readable? && ev.result.Data? then 1 else 0
  }

  /** How many of the rounds report on descriptor i data that cannot be read. */
  function ErrorReports(rounds: seq<Round>, i: nat): nat {
    if rounds == [] then 0
    else
      var last := rounds[|rounds| - 1];
      var ev := if last.Ready? then EventOf(last.revents, i) else Idle;
      ErrorReports(rounds[..|rounds| - 1], i) + if ev == Readable(ReadError) then 1 else 0
  }

  /** No report went unanswered: data was read or made room for, and a failing read was put off only by a full buffer. */
  predicate Served(rounds: seq<Round>, i: nat, pos: nat, used: nat) {
    used <= pos && DataReports(rounds, i) <= 2 * pos - used && LINE_MAX * ErrorReports(rounds, i) <= pos - used
  }

  ghost predicate AllServed(fds: seq<int>, rounds: seq<Round>, states: seq<ReadState>)
    reads states
    requires |states| == |fds|
  {
    forall i :: 0 <= i < |fds| && fds[i] >= 0 && !states[i].eof ==> Served(rounds, i, states[i].pos, states[i].used)
  }

  lemma NoReports()
    ensures forall i: nat :: Served([], i, 0, 0)
  {}

  lemma Answered(rounds: seq<Round>, revents: seq<Revent>, i: nat, pos: nat, used: nat, pos': nat, used': nat)
    requires Served(rounds, i, pos, used) && used' <= pos' && Responded(EventOf(revents, i), pos, used, pos', used')
    requires EventOf(revents, i) == Readable(ReadError) ==> used == LINE_MAX
    ensures Served(rounds + [Ready(revents)], i, pos', used')
  {
    assert (rounds + [Ready(revents)])[..|rounds|] == rounds;
  }

  lemma Unanswered(rounds: seq<Round>, i: nat, pos: nat, used: nat)
    requires Served(rounds, i, pos, used)
    ensures Served(rounds + [PollInterrupted], i, pos, used)
  {
    assert (rounds + [PollInterrupted])[..|rounds|] == rounds;
  }

  ghost predicate Drained(states: seq<ReadState>)
    reads states
  {
    forall i :: 0 <= i < |states| && states[i].eof ==> states[i].pos == |states[i].stream|
  }

  lemma AllDelivered(states: seq<ReadState>)
    requires AllValid(states)
    ensures forall i :: 0 <= i < |states| ==> states[i].pos <= |states[i].stream| && states[i].used <= states[i].buf.Length
    ensures forall i :: 0 <= i < |states| && NulFree(states[i].Consumed()) ==>
              if states[i].eof then states[i].delivered == LinesOf(states[i].Consumed())
              else InStep(states[i].delivered, states[i].buf[..states[i].used], Streamed(states[i].Consumed()))
  {
    hide LinesOf, Streamed, InStep, NulFree;
  }

  lemma UsedWasRead(states: seq<ReadState>, i: nat)
    requires i < |states| && AllValid(states)
    ensures states[i].used <= states[i].pos
  {}

  lemma Apart(states: seq<ReadState>)
    requires AllValid(states)
    ensures forall i, j :: 0 <= i < j < |states| ==> states[i] != states[j]
  {}

  /** One descriptor among all. */
  method HandleOne(states: seq<ReadState>, i: nat, ev: Revent) returns (failed: bool)
    requires i < |states| && AllValid(states) && !states[i].eof
    modifies states[i], states[i].buf
    ensures AllValid(states)
    ensures failed <==> ev == Readable(ReadError) && old(states[i].used) != LINE_MAX
    ensures states[i].eof ==> ev == HungUp || states[i].pos == |states[i].stream|
    ensures states[i].eof || Responded(ev, old(states[i].pos), old(states[i].used), states[i].pos, states[i].used)
  {
    hide ReadState.Valid, Responded;
    failed := states[i].Handle(ev);
    EndMeans(states[i]);
  }

  lemma EndMeans(s: ReadState)
    requires s.Valid()
    ensures s.pos <= |s.stream|
  {}

  /** One round over the descriptors that are not at their end; a failed read ends it. */
  method HandleRound(fds: seq<int>, states: seq<ReadState>, revents: seq<Revent>) returns (failed: bool, done: bool)
    requires |states| == |fds| && AllValid(states)
    modifies states, set s | s in states :: s.buf
    ensures AllValid(states)
    ensures HungUp !in revents && old(Drained(states)) ==> Drained(states)
    ensures failed <==> exists i ::
              && 0 <= i < |fds| && fds[i] >= 0 && EventOf(revents, i) == Readable(ReadError)
              && old(!states[i].eof && states[i].used != LINE_MAX)
    ensures forall i :: 0 <= i < |fds| && old(states[i].eof) ==> states[i].eof
    ensures !failed ==> forall i :: 0 <= i < |fds| && fds[i] >= 0 && !states[i].eof ==>
              Responded(EventOf(revents, i), old(states[i].pos), old(states[i].used), states[i].pos, states[i].used)
    ensures !done ==> exists i :: 0 <= i < |fds| && fds[i] >= 0 && !states[i].eof
    ensures done && !failed ==> forall i :: 0 <= i < |fds| && fds[i] >= 0 ==> states[i].eof
  {
    hide ReadState.Valid, Responded, AllValid;
    Apart(states);
    failed, done := false, true;
    var i := 0;
    while i < |fds| && !failed
      invariant 0 <= i <= |fds| && AllValid(states)
      invariant HungUp !in revents && old(Drained(states)) ==> Drained(states)
      invariant failed <==> exists j ::
                  && 0 <= j < i && fds[j] >= 0 && EventOf(revents, j) == Readable(ReadError)
                  && old(!states[j].eof && states[j].used != LINE_MAX)
      invariant failed ==> exists j ::
                  && 0 <= j < |fds| && fds[j] >= 0 && EventOf(revents, j) == Readable(ReadError)
                  && old(!states[j].eof && states[j].used != LINE_MAX)
      invariant forall j :: i <= j < |fds| ==>
                  states[j].eof == old(states[j].eof) && states[j].pos == old(states[j].pos) && states[j].used == old(states[j].used)
      invariant forall j :: 0 <= j < i && old(states[j].eof) ==> states[j].eof
      invariant !failed ==> forall j :: 0 <= j < i && fds[j] >= 0 && !states[j].eof ==>
                  Responded(EventOf(revents, j), old(states[j].pos), old(states[j].used), states[j].pos, states[j].used)
      invariant !done ==> exists j :: 0 <= j < i && fds[j] >= 0 && !states[j].eof
      invariant done ==> forall j :: 0 <= j < i && fds[j] >= 0 ==> states[j].eof || failed
    {
      if fds[i] >= 0 && !states[i].eof {
        failed := HandleOne(states, i, EventOf(revents, i));
        if !states[i].eof { done := false; }
      }
      i := i + 1;
    }
  }
}
