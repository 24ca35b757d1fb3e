/**
 The command socket. A client's bytes arrive in reads of any size; they are kept in a
 buffer that grows up to a limit, and each complete line is dispatched and shifted
 out. Clients may subscribe to events, and a counter says whether anyone has.
 */
module IpcFramer {
  const BUFFER_INITIAL := 4096
  const BUFFER_MAX := 1024 * 1024
  const MAX_CLIENTS := 10

  newtype byte = b: int | 0 <= b < 256
  const NL: byte := 10
  const NUL: byte := 0

  // --- lines ---

  /** What a stream has come to: the line in progress and the commands dispatched. */
  datatype Framed = Framed(rest: seq<byte>, sent: seq<seq<byte>>)

  const Start := Framed([], [])

  /** A dispatched line: nothing for an empty one. */
  function Dispatch(line: seq<byte>): seq<seq<byte>> {
    if line == [] then [] else [line]
  }

  /** One byte at a time: a newline dispatches the line, unless a NUL has come first. */
  function Feed(f: Framed, b: byte): Framed {
    if b == NL && NUL !in f.rest then Framed([], f.sent + Dispatch(f.rest)) else f.(rest := f.rest + [b])
  }

  function Scan(f: Framed, s: seq<byte>): Framed {
    if s == [] then f else Feed(Scan(f, s[..|s| - 1]), s[|s| - 1])
  }

  lemma {:induction false} ScanConcat(f: Framed, s: seq<byte>, t: seq<byte>)
    ensures Scan(f, s + t) == Scan(Scan(f, s), t)
    decreases |t|
  {
    if t == [] {
      assert s + t == s;
    } else {
      var u := s + t;
      assert u[..|u| - 1] == s + t[..|t| - 1] && u[|u| - 1] == t[|t| - 1];
      ScanConcat(f, s, t[..|t| - 1]);
    }
  }

  lemma {:induction false} ScanOne(f: Framed, b: byte)
    ensures Scan(f, [b]) == Feed(f, b)
  {
    assert [b][..0] == [];
    assert Scan(f, []) == f;
  }

  /** Without a newline, or past a NUL, bytes only pile up. */
  lemma {:induction false} PilesUp(f: Framed, s: seq<byte>)
    requires NL !in s || NUL in f.rest
    ensures Scan(f, s) == Framed(f.rest + s, f.sent)
    decreases |s|
  {
    if s != [] {
      var before := s[..|s| - 1];
      assert forall b | b in before :: b in s;
      PilesUp(f, before);
      assert s[|s| - 1] in s;
      assert f.rest + before + [s[|s| - 1]] == f.rest + s;
    } else {
      assert f.rest + s == f.rest;
    }
  }

  predicate Plain(line: seq<byte>) { NL !in line && NUL !in line }

  /** A whole line is dispatched and leaves nothing. */
  lemma {:induction false} WholeLine(sent: seq<seq<byte>>, line: seq<byte>)
    requires Plain(line)
    ensures Scan(Framed([], sent), line + [NL]) == Framed([], sent + Dispatch(line))
  {
    PilesUp(Framed([], sent), line);
    assert [] + line == line;
    ScanConcat(Framed([], sent), line, [NL]);
    ScanOne(Framed(line, sent), NL);
  }

  function Joined(lines: seq<seq<byte>>): seq<byte> {
    if lines == [] then [] else Joined(lines[..|lines| - 1]) + (lines[|lines| - 1] + [NL])
  }

  function NonEmpty(lines: seq<seq<byte>>): (r: seq<seq<byte>>)
    ensures forall line :: line in r <==> line in lines && line != []
  {
    if lines == [] then [] else NonEmpty(lines[..|lines| - 1]) + Dispatch(lines[|lines| - 1])
  }

  /** What was written as lines is dispatched as those lines, in order, empty ones aside,
      and what was not finished is kept. */
  lemma {:induction false} LinesRoundTrip(lines: seq<seq<byte>>, unfinished: seq<byte>)
    requires (forall i | 0 <= i < |lines| :: Plain(lines[i])) && NL !in unfinished
    ensures Scan(Start, Joined(lines) + unfinished) == Framed(unfinished, NonEmpty(lines))
  {
    WholeLines(lines);
    ScanConcat(Start, Joined(lines), unfinished);
    PilesUp(Framed([], NonEmpty(lines)), unfinished);
    assert [] + unfinished == unfinished;
  }

  lemma {:induction false} WholeLines(lines: seq<seq<byte>>)
    requires forall i | 0 <= i < |lines| :: Plain(lines[i])
    ensures Scan(Start, Joined(lines)) == Framed([], NonEmpty(lines))
    decreases |lines|
  {
    if lines != [] {
      var before, line := lines[..|lines| - 1], lines[|lines| - 1];
      WholeLines(before);
      ScanConcat(Start, Joined(before), line + [NL]);
      WholeLine(NonEmpty(before), line);
    }
  }

  /** A NUL that has come stays in the unfinished line. */
  lemma {:induction false} NulStays(f: Framed, s: seq<byte>)
    requires NUL in f.rest || NUL in s
    ensures NUL in Scan(f, s).rest
    decreases |s|
  {
    if s != [] {
      var before, b := s[..|s| - 1], s[|s| - 1];
      assert s == before + [b];
      if NUL in f.rest || NUL in before {
        NulStays(f, before);
      }
    }
  }

  /** A NUL ends the conversation: of what follows it nothing is ever dispatched. */
  lemma {:induction false} NothingAfterNul(s: seq<byte>, t: seq<byte>)
    requires NUL in s
    ensures Scan(Start, s + t) == Framed(Scan(Start, s).rest + t, Scan(Start, s).sent)
  {
    NulStays(Start, s);
    ScanConcat(Start, s, t);
    PilesUp(Scan(Start, s), t);
  }

  /** The first line that holds a NUL, or the number of lines. */
  function FirstNul(lines: seq<seq<byte>>): (k: nat)
    ensures k <= |lines| && (forall i | 0 <= i < k :: NUL !in lines[i]) && (k < |lines| ==> NUL in lines[k])
  {
    if lines == [] || NUL in lines[0] then 0 else 1 + FirstNul(lines[1..])
  }

  lemma {:induction false} JoinedSplits(lines: seq<seq<byte>>, k: nat)
    requires k < |lines|
    ensures exists t :: Joined(lines) == Joined(lines[..k]) + (lines[k] + [NL]) + t
    ensures |NonEmpty(lines)| >= |NonEmpty(lines[..k])| + |Dispatch(lines[k])|
    decreases |lines|
  {
    var n := |lines| - 1;
    if k == n {
      assert Joined(lines) == Joined(lines[..k]) + (lines[k] + [NL]) + [];
    } else {
      JoinedSplits(lines[..n], k);
      assert lines[..n][..k] == lines[..k];
      var t :| Joined(lines[..n]) == Joined(lines[..k]) + (lines[k] + [NL]) + t;
      assert Joined(lines) == Joined(lines[..k]) + (lines[k] + [NL]) + (t + (lines[n] + [NL]));
    }
  }

  lemma {:induction false} LineWithNul(before: seq<seq<byte>>, line: seq<byte>, t: seq<byte>)
    requires (forall i | 0 <= i < |before| :: Plain(before[i])) && NL !in line && NUL in line
    ensures Scan(Start, (Joined(before) + line) + t).sent == NonEmpty(before)
  {
    WholeLines(before);
    ScanConcat(Start, Joined(before), line);
    PilesUp(Framed([], NonEmpty(before)), line);
    NothingAfterNul(Joined(before) + line, t);
  }

  lemma Regroup(a: seq<byte>, b: seq<byte>, c: seq<byte>, t: seq<byte>, u: seq<byte>)
    ensures (a + (b + c) + t) + u == (a + b) + (c + t + u)
  {
  }

  /** Of lines written with NULs in them, those before the first NUL are dispatched. */
  lemma {:induction false} DispatchedUpToNul(lines: seq<seq<byte>>, unfinished: seq<byte>)
    requires (forall i | 0 <= i < |lines| :: NL !in lines[i]) && NL !in unfinished
    ensures Scan(Start, Joined(lines) + unfinished).sent == NonEmpty(lines[..FirstNul(lines)])
  {
    var k := FirstNul(lines);
    if k == |lines| {
      assert lines[..k] == lines;
      LinesRoundTrip(lines, unfinished);
    } else {
      JoinedSplits(lines, k);
      var t :| Joined(lines) == Joined(lines[..k]) + (lines[k] + [NL]) + t;
      LineWithNul(lines[..k], lines[k], [NL] + t + unfinished);
      Regroup(Joined(lines[..k]), lines[k], [NL], t, unfinished);
    }
  }

  /** All lines come out if and only if none of them holds a NUL. */
  lemma {:induction false} LinesComeOutIffNoNul(lines: seq<seq<byte>>, unfinished: seq<byte>)
    requires (forall i | 0 <= i < |lines| :: NL !in lines[i]) && NL !in unfinished
    ensures Scan(Start, Joined(lines) + unfinished).sent == NonEmpty(lines)
       <==> forall i | 0 <= i < |lines| :: NUL !in lines[i]
  {
    DispatchedUpToNul(lines, unfinished);
    var k := FirstNul(lines);
    if k < |lines| {
      JoinedSplits(lines, k);
    } else {
      assert lines[..k] == lines;
    }
  }

  // --- reads ---

  /** A client between reads. */
  datatype Client = Client(framed: Framed, size: nat, alive: bool)

  const Connected := Client(Start, BUFFER_INITIAL, true)

  function Grown(size: nat): nat {
    if 2 * size > BUFFER_MAX then BUFFER_MAX else 2 * size
  }

  /** What read may return: some bytes, no more than there is room for with a final NUL. */
  predicate Readable(c: Client, chunk: seq<byte>) {
    0 < |chunk| && |c.framed.rest| + |chunk| < c.size
  }

  function Read(c: Client, chunk: seq<byte>): Client {
    if !c.alive then c
    else
      var f := Scan(c.framed, chunk);
      if |f.rest| < c.size - 1 then Client(f, c.size, true)
      else if c.size >= BUFFER_MAX then Client(f, c.size, false)
      else Client(f, Grown(c.size), true)
  }

  /** Between reads there is room for one more: the check before a read never fires. */
  predicate Sound(c: Client) {
    BUFFER_INITIAL <= c.size <= BUFFER_MAX && (c.alive ==> |c.framed.rest| < c.size - 1)
  }

  function Joint(chunks: seq<seq<byte>>): seq<byte> {
    if chunks == [] then [] else Joint(chunks[..|chunks| - 1]) + chunks[|chunks| - 1]
  }

  function Reads(c: Client, chunks: seq<seq<byte>>): Client {
    if chunks == [] then c else Read(Reads(c, chunks[..|chunks| - 1]), chunks[|chunks| - 1])
  }

  /** Every read fitted the buffer it found, and was made while the client was there. */
  predicate Possible(chunks: seq<seq<byte>>) {
    chunks == [] ||
    (Possible(chunks[..|chunks| - 1]) && Reads(Connected, chunks[..|chunks| - 1]).alive
     && Readable(Reads(Connected, chunks[..|chunks| - 1]), chunks[|chunks| - 1]))
  }

  /** Some prefix of the stream leaves an unfinished line that fills the largest buffer. */
  predicate TooLong(s: seq<byte>) {
    exists p | 0 <= p <= |s| :: |Scan(Start, s[..p]).rest| >= BUFFER_MAX - 1
  }

  lemma {:induction false} GrowsByBytes(f: Framed, s: seq<byte>)
    ensures |Scan(f, s).rest| <= |f.rest| + |s|
    decreases |s|
  {
    if s != [] { GrowsByBytes(f, s[..|s| - 1]); }
  }

  /** However the stream was cut, the commands dispatched are those of the whole stream,
      and the buffer holds exactly its unfinished end. */
  lemma {:induction false} CuttingDoesNotMatter(chunks: seq<seq<byte>>)
    requires Possible(chunks)
    ensures Sound(Reads(Connected, chunks)) && Reads(Connected, chunks).framed == Scan(Start, Joint(chunks))
    decreases |chunks|
  {
    if chunks != [] {
      var before, chunk := chunks[..|chunks| - 1], chunks[|chunks| - 1];
      CuttingDoesNotMatter(before);
      ScanConcat(Start, Joint(before), chunk);
      GrowsByBytes(Reads(Connected, before).framed, chunk);
    }
  }

  /** A read never jumps over an unfinished line of the full length. */
  lemma {:induction false} TooLongSplits(b: seq<byte>, c: Client, chunk: seq<byte>)
    requires Sound(c) && c.alive && Readable(c, chunk) && c.framed == Scan(Start, b)
    ensures TooLong(b + chunk) <==> TooLong(b) || |Scan(Start, b + chunk).rest| >= BUFFER_MAX - 1
  {
    var s := b + chunk;
    assert s[..|s|] == s;
    if TooLong(b) {
      var p :| 0 <= p <= |b| && |Scan(Start, b[..p]).rest| >= BUFFER_MAX - 1;
      assert s[..p] == b[..p];
    }
    if TooLong(s) {
      var p :| 0 <= p <= |s| && |Scan(Start, s[..p]).rest| >= BUFFER_MAX - 1;
      if p <= |b| {
        assert s[..p] == b[..p];
      } else if p < |s| {
        assert s[..p] == b + chunk[..p - |b|];
        ScanConcat(Start, b, chunk[..p - |b|]);
        GrowsByBytes(c.framed, chunk[..p - |b|]);
      }
    }
  }

  /** A client is dropped for length exactly when its stream, however cut, comes to hold an
      unfinished line of the full length. */
  lemma {:induction false} DroppedIffTooLong(chunks: seq<seq<byte>>)
    requires Possible(chunks)
    ensures !Reads(Connected, chunks).alive <==> TooLong(Joint(chunks))
    decreases |chunks|
  {
    if chunks == [] {
      assert Joint(chunks)[..0] == [];
      assert Scan(Start, []).rest == [];
    } else {
      var before, chunk := chunks[..|chunks| - 1], chunks[|chunks| - 1];
      DroppedIffTooLong(before);
      CuttingDoesNotMatter(before);
      CuttingDoesNotMatter(chunks);
      TooLongSplits(Joint(before), Reads(Connected, before), chunk);
      GrowsByBytes(Reads(Connected, before).framed, chunk);
    }
  }

  // --- the buffer ---

  /** Where strchr finds the first newline; the length when a NUL or the end comes first. */
  function NewlineAt(s: seq<byte>): (i: nat)
    ensures i <= |s| && (i < |s| ==> s[i] == NL)
  {
    if s == [] || s[0] == NL then 0 else if s[0] == NUL then |s| else 1 + NewlineAt(s[1..])
  }

  /** What strchr passed over is a plain line. */
  lemma {:induction false} FoundLineIsPlain(s: seq<byte>)
    requires NewlineAt(s) < |s|
    ensures Plain(s[..NewlineAt(s)])
  {
    if s[0] != NL {
      FoundLineIsPlain(s[1..]);
      var i := NewlineAt(s[1..]);
      assert s[..1 + i] == [s[0]] + s[1..][..i];
    }
  }

  /** When it finds none there is none, or a NUL comes first. */
  lemma {:induction false} NoneFound(s: seq<byte>)
    requires NewlineAt(s) == |s|
    ensures exists k :: 0 <= k <= |s| && NL !in s[..k] && (k < |s| ==> s[k] == NUL)
  {
    if s == [] {
      assert NL !in s[..0];
    } else if s[0] == NUL {
      assert NL !in s[..0];
    } else {
      NoneFound(s[1..]);
      var k :| 0 <= k <= |s[1..]| && NL !in s[1..][..k] && (k < |s[1..]| ==> s[1..][k] == NUL);
      assert s[..1 + k] == [s[0]] + s[1..][..k];
    }
  }

  lemma {:induction false} NulStalls(sent: seq<seq<byte>>, s: seq<byte>, k: nat)
    requires k < |s| && NL !in s[..k] && s[k] == NUL
    ensures Scan(Framed([], sent), s) == Framed(s, sent)
  {
    var f := Framed([], sent);
    var head, tail := s[..k] + [NUL], s[k + 1..];
    assert s == head + tail;
    assert NL !in head;
    PilesUp(f, head);
    assert [] + head == head && NUL in head;
    ScanConcat(f, head, tail);
    PilesUp(Framed(head, sent), tail);
  }

  lemma {:induction false} NoneFoundPilesUp(sent: seq<seq<byte>>, s: seq<byte>)
    requires NewlineAt(s) == |s|
    ensures Scan(Framed([], sent), s) == Framed(s, sent)
  {
    NoneFound(s);
    var k :| 0 <= k <= |s| && NL !in s[..k] && (k < |s| ==> s[k] == NUL);
    if k < |s| {
      NulStalls(sent, s, k);
    } else {
      assert s[..k] == s;
      PilesUp(Framed([], sent), s);
      assert [] + s == s;
    }
  }

  /** Taking a line out of the buffer leaves the rest of the stream to scan. */
  lemma {:induction false} TakeLine(sent: seq<seq<byte>>, s: seq<byte>)
    requires NewlineAt(s) < |s|
    ensures var i := NewlineAt(s);
            Scan(Framed([], sent), s) == Scan(Framed([], sent + Dispatch(s[..i])), s[i + 1..])
  {
    var i := NewlineAt(s);
    FoundLineIsPlain(s);
    assert s == (s[..i] + [NL]) + s[i + 1..];
    WholeLine(sent, s[..i]);
    ScanConcat(Framed([], sent), s[..i] + [NL], s[i + 1..]);
  }

  /** What is left in a buffer is found unfinished again. */
  lemma {:induction false} RescanRest(f: Framed, s: seq<byte>)
    requires Scan(Framed([], f.sent), f.rest) == f
    ensures Scan(f, s) == Scan(Framed([], f.sent), f.rest + s)
    ensures Scan(Framed([], Scan(f, s).sent), Scan(f, s).rest) == Scan(f, s)
    decreases |s|
  {
    ScanConcat(Framed([], f.sent), f.rest, s);
    if s != [] {
      var before, b := s[..|s| - 1], s[|s| - 1];
      RescanRest(f, before);
      var g := Scan(f, before);
      if !(b == NL && NUL !in g.rest) {
        ScanConcat(Framed([], g.sent), g.rest, [b]);
        ScanOne(g, b);
      } else {
        assert Scan(Framed([], Scan(f, s).sent), []) == Framed([], Scan(f, s).sent);
      }
    }
  }

  /** The buffer, its fill and the commands dispatched. */
  class Connection {
    var buffer: array<byte>
    var used: nat
    var alive: bool
    ghost var sent: seq<seq<byte>>

    ghost predicate Valid()
      reads this, buffer
    {
      && used <= buffer.Length && Sound(Model())
      && Scan(Framed([], sent), buffer[..used]) == Framed(buffer[..used], sent)
    }

    ghost function Model(): Client
      requires used <= buffer.Length
      reads this, buffer
    {
      Client(Framed(buffer[..used], sent), buffer.Length, alive)
    }

    constructor ()
      ensures Valid() && Model() == Connected && fresh(buffer)
    {
      buffer := new byte[BUFFER_INITIAL];
      used, alive, sent := 0, true, [];
    }

    /** False at the limit. */
    method BufferGrow() returns (ok: bool)
      requires used <= buffer.Length && BUFFER_INITIAL <= buffer.Length <= BUFFER_MAX
      modifies this`buffer
      ensures ok == (old(buffer.Length) < BUFFER_MAX)
      ensures !ok ==> buffer == old(buffer)
      ensures ok ==> fresh(buffer) && buffer.Length == Grown(old(buffer.Length))
      ensures ok ==> buffer.Length == 2 * old(buffer.Length) || 2 * old(buffer.Length) > buffer.Length == BUFFER_MAX
      ensures used <= buffer.Length && buffer[..used] == old(buffer[..used])
    {
      if buffer.Length >= BUFFER_MAX { return false; }
      var size := buffer.Length * 2;
      if size > BUFFER_MAX { size := BUFFER_MAX; }
      var grown := new byte[size];
      forall i | 0 <= i < used { grown[i] := buffer[i]; }
      assert grown[..used] == buffer[..used];
      buffer := grown;
      ok := true;
    }

    /** strchr for a newline over the buffer and its final NUL. */
    method FindNewline() returns (i: nat)
      requires used < buffer.Length && buffer[used] == NUL
      ensures i == NewlineAt(buffer[..used])
    {
      i := 0;
      assert buffer[0..used] == buffer[..used];
      while buffer[i] != NL && buffer[i] != NUL
        invariant i <= used
        invariant NewlineAt(buffer[..used]) == i + NewlineAt(buffer[i..used])
        decreases used - i
      {
        assert buffer[i..used][1..] == buffer[i + 1..used];
        i := i + 1;
      }
      if i == used || buffer[i] == NUL { i := used; }
    }

    /** The first line leaves the buffer; memmove takes the final NUL along. */
    method Shift(n: nat)
      requires n < used < buffer.Length && buffer[used] == NUL
      modifies this`used, buffer
      ensures used == old(used) - (n + 1) && buffer[used] == NUL
      ensures buffer[..used] == old(buffer[n + 1..used])
    {
      var left := used - (n + 1);
      for j := 0 to left + 1
        invariant forall k | 0 <= k < j :: buffer[k] == old(buffer[n + 1 + k])
        invariant forall k | j <= k < buffer.Length :: buffer[k] == old(buffer[k])
      {
        buffer[j] := buffer[n + 1 + j];
      }
      used := left;
      assert buffer[left] == old(buffer[n + 1 + left]) == NUL;
    }

    method DispatchLine(i: nat)
      requires i < used < buffer.Length && buffer[used] == NUL && i == NewlineAt(buffer[..used])
      modifies this`used, this`sent, buffer
      ensures used < old(used) && used < buffer.Length && buffer[used] == NUL
      ensures Scan(Framed([], sent), buffer[..used]) == Scan(Framed([], old(sent)), old(buffer[..used]))
    {
      ghost var now := buffer[..used];
      TakeLine(sent, now);
      assert buffer[..i] == now[..i];
      if i > 0 { sent := sent + [buffer[..i]]; }
      assert sent == old(sent) + Dispatch(now[..i]);
      Shift(i);
      assert buffer[..used] == now[i + 1..];
    }

    method DispatchLines()
      requires used < buffer.Length && buffer[used] == NUL
      modifies this`used, this`sent, buffer
      ensures used < buffer.Length
      ensures Framed(buffer[..used], sent) == Scan(Framed([], old(sent)), old(buffer[..used]))
    {
      ghost var all := buffer[..used];
      var i := FindNewline();
      while i < used
        invariant i <= used < buffer.Length && buffer[used] == NUL && i == NewlineAt(buffer[..used])
        invariant Scan(Framed([], sent), buffer[..used]) == Scan(Framed([], old(sent)), all)
        decreases used
      {
        DispatchLine(i);
        i := FindNewline();
      }
      NoneFoundPilesUp(sent, buffer[..used]);
    }

    /** read into the free part, and the final NUL. */
    method Append(chunk: seq<byte>)
      requires used + |chunk| < buffer.Length
      modifies this`used, buffer
      ensures used == old(used) + |chunk| && buffer[used] == NUL
      ensures buffer[..used] == old(buffer[..used]) + chunk
    {
      forall j | 0 <= j < |chunk| { buffer[used + j] := chunk[j]; }
      used := used + |chunk|;
      buffer[used] := NUL;
    }

    method Receive(chunk: seq<byte>)
      requires used + |chunk| < buffer.Length
      requires Scan(Framed([], sent), buffer[..used]) == Framed(buffer[..used], sent)
      modifies this`used, this`sent, buffer
      ensures used < buffer.Length
      ensures Framed(buffer[..used], sent) == Scan(old(Framed(buffer[..used], sent)), chunk)
      ensures Scan(Framed([], sent), buffer[..used]) == Framed(buffer[..used], sent)
    {
      RescanRest(Framed(buffer[..used], sent), chunk);
      Append(chunk);
      DispatchLines();
    }

    /** The check after a read: a full buffer grows, and at the limit the client goes. */
    method MakeRoom()
      requires used < buffer.Length && BUFFER_INITIAL <= buffer.Length <= BUFFER_MAX
      modifies this`buffer, this`alive
      ensures used < buffer.Length && buffer[..used] == old(buffer[..used]) && (buffer == old(buffer) || fresh(buffer))
      ensures alive == (old(alive) && (used < old(buffer.Length) - 1 || old(buffer.Length) < BUFFER_MAX))
      ensures buffer.Length == if used < old(buffer.Length) - 1 || old(buffer.Length) == BUFFER_MAX
                               then old(buffer.Length) else Grown(old(buffer.Length))
    {
      if used >= buffer.Length - 1 {
        var ok := BufferGrow();
        if !ok { alive := false; }
      }
    }

    /** One readable event with bytes to read. */
    method HandleData(chunk: seq<byte>)
      requires Valid() && alive && Readable(Model(), chunk)
      modifies this, buffer
      ensures Valid() && Model() == Read(old(Model()), chunk) && (buffer == old(buffer) || fresh(buffer))
    {
      Receive(chunk);
      MakeRoom();
    }
  }

  // --- subscribers ---

  datatype Peer = Peer(fd: nat, subscribed: bool)

  function Subscribed(ps: seq<Peer>): nat {
    if ps == [] then 0 else Subscribed(ps[..|ps| - 1]) + if ps[|ps| - 1].subscribed then 1 else 0
  }

  lemma {:induction false} SubscribedConcat(a: seq<Peer>, b: seq<Peer>)
    ensures Subscribed(a + b) == Subscribed(a) + Subscribed(b)
    decreases |b|
  {
    if b == [] {
      assert a + b == a;
    } else {
      assert (a + b)[..|a + b| - 1] == a + b[..|b| - 1];
      SubscribedConcat(a, b[..|b| - 1]);
    }
  }

  lemma {:induction false} SubscribedAround(ps: seq<Peer>, i: nat)
    requires i < |ps|
    ensures Subscribed(ps) == Subscribed(ps[..i]) + (if ps[i].subscribed then 1 else 0) + Subscribed(ps[i + 1..])
  {
    assert ps == ps[..i] + [ps[i]] + ps[i + 1..];
    assert ps[..i + 1] == ps[..i] + [ps[i]] && ps[..i + 1][..i] == ps[..i];
    SubscribedConcat(ps[..i + 1], ps[i + 1..]);
  }

  lemma {:induction false} AnySubscribed(ps: seq<Peer>)
    ensures Subscribed(ps) > 0 <==> exists i | 0 <= i < |ps| :: ps[i].subscribed
  {
    if ps != [] {
      AnySubscribed(ps[..|ps| - 1]);
      if i :| 0 <= i < |ps| - 1 && ps[i].subscribed { assert ps[..|ps| - 1][i].subscribed; }
    }
  }

  datatype WriteResult = Written | Again | Failed

  function KeptAfter(ps: seq<Peer>, result: nat -> WriteResult): seq<Peer> {
    if ps == [] then []
    else
      (if ps[0].subscribed && result(ps[0].fd).Failed? then [] else [ps[0]]) + KeptAfter(ps[1..], result)
  }

  class Server {
    var peers: seq<Peer>
    var subscribers: int

    /** The counter is the number of subscribed clients, and descriptors differ. */
    predicate Valid()
      reads this
    {
      && subscribers == Subscribed(peers) && |peers| <= MAX_CLIENTS
      && forall i, j | 0 <= i < j < |peers| :: peers[i].fd != peers[j].fd
    }

    /** A new client goes to the front; beyond the limit it is turned away. */
    method HandleConnection(fd: nat) returns (accepted: bool)
      requires Valid() && forall i | 0 <= i < |peers| :: peers[i].fd != fd
      modifies this
      ensures Valid() && accepted == (|old(peers)| < MAX_CLIENTS)
      ensures peers == if accepted then [Peer(fd, false)] + old(peers) else old(peers)
    {
      if |peers| >= MAX_CLIENTS { return false; }
      SubscribedConcat([Peer(fd, false)], peers);
      assert [Peer(fd, false)][..0] == [];
      peers := [Peer(fd, false)] + peers;
      accepted := true;
    }

    method SubscribeClient(fd: nat)
      requires Valid()
      modifies this
      ensures Valid() && |peers| == |old(peers)|
      ensures forall i | 0 <= i < |peers| :: peers[i].fd == old(peers)[i].fd &&
                peers[i].subscribed == (old(peers)[i].subscribed || peers[i].fd == fd)
    {
      for i := 0 to |peers|
        invariant peers == old(peers) && Valid()
        invariant forall j | 0 <= j < i :: peers[j].fd != fd
      {
        if peers[i].fd == fd {
          if !peers[i].subscribed {
            ghost var was := peers;
            SubscribedAround(was, i);
            peers := peers[i := Peer(fd, true)];
            SubscribedAround(peers, i);
            assert peers[..i] == was[..i] && peers[i + 1..] == was[i + 1..];
            subscribers := subscribers + 1;
          }
          return;
        }
      }
    }

    method ClientDestroy(i: nat)
      requires Valid() && i < |peers|
      modifies this
      ensures Valid() && peers == old(peers)[..i] + old(peers)[i + 1..]
    {
      SubscribedAround(peers, i);
      SubscribedConcat(peers[..i], peers[i + 1..]);
      if peers[i].subscribed { subscribers := subscribers - 1; }
      peers := peers[..i] + peers[i + 1..];
    }

    method HasSubscribers() returns (r: bool)
      requires Valid()
      ensures r <==> exists i | 0 <= i < |peers| :: peers[i].subscribed
    {
      AnySubscribed(peers);
      r := subscribers > 0;
    }

    /** The write to one client, which goes when its socket has failed; next is where the
        list goes on. */
    method WriteTo(i: nat, result: nat -> WriteResult) returns (next: nat)
      requires Valid() && i < |peers|
      modifies this
      ensures Valid() && next <= |peers| && peers[next..] == old(peers)[i + 1..]
      ensures peers[..next] == old(peers)[..i] + KeptAfter([old(peers)[i]], result)
      ensures |peers| - next < |old(peers)| - i
    {
      var p := peers[i];
      ghost var ps := peers;
      assert KeptAfter([p][1..], result) == [];
      if p.subscribed && result(p.fd).Failed? {
        ClientDestroy(i);
        assert peers[..i] == ps[..i] + KeptAfter([p], result);
        next := i;
      } else {
        assert peers[..i + 1] == ps[..i] + [p];
        next := i + 1;
      }
    }

    /** Every subscribed client is written to once; those whose socket failed go, the
        others stay in order. */
    method Broadcast(result: nat -> WriteResult) returns (wrote: seq<nat>)
      requires Valid()
      modifies this
      ensures Valid() && peers == KeptAfter(old(peers), result)
      ensures wrote == SubscribedFds(old(peers))
    {
      wrote := [];
      if subscribers <= 0 {
        NobodyToWriteTo(peers, result);
        return;
      }
      var i := 0;
      ghost var k := 0;
      ghost var ps := peers;
      while i < |peers|
        invariant Valid() && 0 <= i <= |peers| && 0 <= k <= |ps| && peers[i..] == ps[k..]
        invariant peers[..i] == KeptAfter(ps[..k], result)
        invariant wrote == SubscribedFds(ps[..k])
        decreases |peers| - i
      {
        var p := peers[i];
        assert p == peers[i..][0] == ps[k];
        KeptSnoc(ps[..k], ps[k], result);
        assert ps[..k + 1] == ps[..k] + [ps[k]];
        assert ps[k + 1..] == ps[k..][1..] == peers[i..][1..] == peers[i + 1..];
        if p.subscribed { wrote := wrote + [p.fd]; }
        i := WriteTo(i, result);
        k := k + 1;
      }
      assert peers[..i] == peers && ps[..k] == ps;
    }
  }

  lemma {:induction false} KeptSnoc(ps: seq<Peer>, p: Peer, result: nat -> WriteResult)
    ensures KeptAfter(ps + [p], result) == KeptAfter(ps, result) + KeptAfter([p], result)
    ensures SubscribedFds(ps + [p]) == SubscribedFds(ps) + if p.subscribed then [p.fd] else []
    decreases |ps|
  {
    if ps == [] {
      assert [] + [p] == [p] && [p][1..] == [];
    } else {
      assert (ps + [p])[1..] == ps[1..] + [p];
      KeptSnoc(ps[1..], p, result);
    }
  }

  function SubscribedFds(ps: seq<Peer>): seq<nat> {
    if ps == [] then [] else (if ps[0].subscribed then [ps[0].fd] else []) + SubscribedFds(ps[1..])
  }

  /** Only a subscriber whose socket has failed goes, and only subscribers are written to. */
  lemma {:induction false} BroadcastReaches(ps: seq<Peer>, result: nat -> WriteResult, p: Peer)
    ensures p in KeptAfter(ps, result) <==> p in ps && (p.subscribed ==> result(p.fd) != Failed)
    ensures p.fd in SubscribedFds(ps) <==> Peer(p.fd, true) in ps
    decreases |ps|
  {
    if ps != [] { BroadcastReaches(ps[1..], result, p); }
  }

  lemma {:induction false} NobodyToWriteTo(ps: seq<Peer>, result: nat -> WriteResult)
    requires Subscribed(ps) == 0
    ensures KeptAfter(ps, result) == ps && SubscribedFds(ps) == []
    decreases |ps|
  {
    if ps != [] {
      SubscribedAround(ps, 0);
      NobodyToWriteTo(ps[1..], result);
      assert ps == [ps[0]] + ps[1..];
    }
  }
}
