/** Framing of an agent's output streams into lines, whatever their chunks. */
module Framing {
  import opened Sequences

  newtype Byte = x: int | 0 <= x < 256

  const NEWLINE: Byte := 10

  const STDERR_LINE_LIMIT: nat := 256 * 1024

  // ---------------------------------------------------------------------
  // The lines of a whole stream
  // ---------------------------------------------------------------------

  /** The position of the first newline, or the length if there is none. */
  function Find(s: seq<Byte>): (i: nat)
    ensures i <= |s|
    ensures i < |s| ==> s[i] == NEWLINE
    ensures forall k :: 0 <= k < i ==> s[k] != NEWLINE
  {
    if s == [] || s[0] == NEWLINE then 0 else 1 + Find(s[1..])
  }

  /** The newline-terminated lines, without their newlines. */
  function Lines(s: seq<Byte>): seq<seq<Byte>> {
    var i := Find(s);
    if i == |s| then [] else [s[..i]] + Lines(s[i + 1..])
  }

  /** What follows the last newline. */
  function Rest(s: seq<Byte>): seq<Byte> {
    var i := Find(s);
    if i == |s| then s else Rest(s[i + 1..])
  }

  /** The frames of a finished stream: its lines, and its last line if unterminated. */
  function Frames(s: seq<Byte>): seq<seq<Byte>> {
    Lines(s) + if Rest(s) == [] then [] else [Rest(s)]
  }

  function Joined(lines: seq<seq<Byte>>): seq<Byte> {
    if lines == [] then [] else lines[0] + [NEWLINE] + Joined(lines[1..])
  }

  /** Framing loses nothing: the lines with their newlines and the rest are the
      stream, and no line contains a newline. */
  lemma {:induction false} LinesRejoin(s: seq<Byte>)
    ensures Joined(Lines(s)) + Rest(s) == s
    ensures NEWLINE !in Rest(s) && forall line :: line in Lines(s) ==> NEWLINE !in line
    decreases |s|
  {
    var i := Find(s);
    if i < |s| {
      LinesRejoin(s[i + 1..]);
      JoinedCons(s[..i], Lines(s[i + 1..]));
      Regroup(s[..i] + [NEWLINE], Joined(Lines(s[i + 1..])), Rest(s[i + 1..]));
      CutAt(s, i);
      forall line | line in Lines(s) ensures NEWLINE !in line {
        assert line == s[..i] || line in Lines(s[i + 1..]);
      }
    }
  }

  lemma Regroup(a: seq<Byte>, b: seq<Byte>, c: seq<Byte>)
    ensures (a + b) + c == a + (b + c)
  {
  }

  lemma CutAt(s: seq<Byte>, i: nat)
    requires i < |s| && s[i] == NEWLINE
    ensures (s[..i] + [NEWLINE]) + s[i + 1..] == s
  {
  }

  lemma JoinedCons(line: seq<Byte>, lines: seq<seq<Byte>>)
    ensures Joined([line] + lines) == line + [NEWLINE] + Joined(lines)
  {
    assert ([line] + lines)[1..] == lines;
  }

  lemma {:induction false} FindAppend(a: seq<Byte>, b: seq<Byte>)
    requires Find(a) < |a|
    ensures Find(a + b) == Find(a)
  {
    if a[0] != NEWLINE {
      assert (a + b)[1..] == a[1..] + b;
      FindAppend(a[1..], b);
    }
  }

  /** Lines already complete stay as they are; the rest joins what follows. */
  lemma {:induction false} LinesAppend(a: seq<Byte>, b: seq<Byte>)
    ensures Lines(a + b) == Lines(a) + Lines(Rest(a) + b)
    ensures Rest(a + b) == Rest(Rest(a) + b)
    decreases |a|
  {
    var i := Find(a);
    if i < |a| {
      FindAppend(a, b);
      assert (a + b)[i + 1..] == a[i + 1..] + b && (a + b)[..i] == a[..i];
      LinesAppend(a[i + 1..], b);
    }
  }

  lemma {:induction false} RestHasNoNewline(s: seq<Byte>)
    ensures Find(Rest(s)) == |Rest(s)|
    decreases |s|
  {
    if Find(s) < |s| {
      RestHasNoNewline(s[Find(s) + 1..]);
    }
  }

  /** A piece without a newline just lengthens the rest. */
  lemma PlainPiece(a: seq<Byte>, piece: seq<Byte>)
    requires Find(piece) == |piece|
    ensures Lines(a + piece) == Lines(a) && Rest(a + piece) == Rest(a) + piece
  {
    RestHasNoNewline(a);
    LinesAppend(a, piece);
    NoNewlineEither(Rest(a), piece);
  }

  lemma NoNewlineEither(a: seq<Byte>, b: seq<Byte>)
    requires Find(a) == |a| && Find(b) == |b|
    ensures Find(a + b) == |a + b|
  {
    forall k | 0 <= k < |a + b| ensures (a + b)[k] != NEWLINE {
    }
  }

  /** A piece that ends in its only newline completes one line. */
  lemma LinePiece(a: seq<Byte>, piece: seq<Byte>)
    requires Find(piece) == |piece|
    ensures Lines(a + (piece + [NEWLINE])) == Lines(a) + [Rest(a) + piece]
    ensures Rest(a + (piece + [NEWLINE])) == []
  {
    RestHasNoNewline(a);
    NoNewlineEither(Rest(a), piece);
    LinesAppend(a, piece + [NEWLINE]);
    var line := Rest(a) + piece;
    var all := line + [NEWLINE];
    assert Rest(a) + (piece + [NEWLINE]) == all;
    FindLast(line);
    assert all[..|line|] == line && all[|line| + 1..] == [];
    assert Lines([]) == [];
  }

  lemma {:induction false} FindLast(line: seq<Byte>)
    requires Find(line) == |line|
    ensures Find(line + [NEWLINE]) == |line|
  {
    if line != [] {
      assert (line + [NEWLINE])[1..] == line[1..] + [NEWLINE];
      FindLast(line[1..]);
    }
  }

  // ---------------------------------------------------------------------
  // Standard output
  // ---------------------------------------------------------------------

  class StdoutFramer {
    var buffer: seq<Byte>
    var emitted: seq<seq<Byte>>
    ghost var consumed: seq<Byte>

    ghost predicate Valid()
      reads this
    {
      buffer == Rest(consumed) && emitted == Lines(consumed)
    }

    constructor ()
      ensures Valid() && consumed == []
    {
      buffer, emitted, consumed := [], [], [];
    }

    /** Take one chunk and emit the lines it completes. */
    method Consume(chunk: seq<Byte>)
      requires Valid()
      modifies this
      ensures Valid() && consumed == old(consumed) + chunk
    {
      LinesAppend(consumed, chunk);
      buffer := buffer + chunk;
      consumed := consumed + chunk;
      EmitLines();
    }

    /** Move every complete line out of the buffer. */
    method EmitLines()
      modifies this`buffer, this`emitted
      ensures emitted == old(emitted) + Lines(old(buffer)) && buffer == Rest(old(buffer))
    {
      var newline := Find(buffer);
      while newline < |buffer|
        invariant newline == Find(buffer)
        invariant emitted + Lines(buffer) == old(emitted) + Lines(old(buffer)) && Rest(buffer) == Rest(old(buffer))
        decreases |buffer|
      {
        assert emitted + Lines(buffer) == (emitted + [buffer[..newline]]) + Lines(buffer[newline + 1..]);
        emitted := emitted + [buffer[..newline]];
        buffer := buffer[newline + 1..];
        newline := Find(buffer);
      }
      assert emitted + [] == emitted;
    }

    /** At the end of the stream an unterminated last line is emitted too. */
    method Finish()
      requires Valid()
      modifies this
      ensures emitted == Frames(old(consumed)) && buffer == [] && consumed == old(consumed)
    {
      if buffer != [] {
        emitted := emitted + [buffer];
        buffer := [];
      }
    }
  }

  /** However a stream is cut into chunks, the frames are those of the stream. */
  method FrameStdout(chunks: seq<seq<Byte>>) returns (frames: seq<seq<Byte>>)
    ensures frames == Frames(Concat(chunks))
  {
    var framer := new StdoutFramer();
    var i := 0;
    while i < |chunks|
      invariant i <= |chunks| && framer.Valid() && framer.consumed == Concat(chunks[..i])
    {
      assert chunks[..i + 1][..i] == chunks[..i];
      framer.Consume(chunks[i]);
      i := i + 1;
    }
    assert chunks[..i] == chunks;
    framer.Finish();
    return framer.emitted;
  }

  // ---------------------------------------------------------------------
  // Standard error, with a limit on line length
  // ---------------------------------------------------------------------

  datatype Entry = Line(raw: seq<Byte>) | Omitted

  function EntryOf(line: seq<Byte>): Entry {
    if |line| > STDERR_LINE_LIMIT then Omitted else Line(line)
  }

  /** Every line, or the notice that replaces one that is too long. */
  function Entries(lines: seq<seq<Byte>>): (entries: seq<Entry>)
    ensures |entries| == |lines| && forall i :: 0 <= i < |lines| ==> entries[i] == EntryOf(lines[i])
  {
    seq(|lines|, i requires 0 <= i < |lines| => EntryOf(lines[i]))
  }

  lemma EntriesAppend(lines: seq<seq<Byte>>, line: seq<Byte>)
    ensures Entries(lines + [line]) == Entries(lines) + [EntryOf(line)]
  {
  }

  class StderrFramer {
    var buffer: seq<Byte>
    var overflow: bool
    var errors: seq<Entry>
    ghost var consumed: seq<Byte>

    ghost predicate Valid()
      reads this
    {
      && errors == Entries(Lines(consumed))
      && (overflow <==> |Rest(consumed)| > STDERR_LINE_LIMIT)
      && buffer == if overflow then [] else Rest(consumed)
    }

    constructor ()
      ensures Valid() && consumed == []
    {
      buffer, overflow, errors, consumed := [], false, [], [];
    }

    /** Take one chunk, segment by segment. */
    method Consume(chunk: seq<Byte>)
      requires Valid()
      modifies this
      ensures Valid() && consumed == old(consumed) + chunk
    {
      var pending := chunk;
      while pending != []
        invariant Valid() && consumed + pending == old(consumed) + chunk
        decreases |pending|
      {
        var newline := Find(pending);
        ghost var before := consumed;
        if newline < |pending| {
          var segment, following := pending[..newline], pending[newline + 1..];
          Reassociate(before, segment + [NEWLINE], following, pending);
          FindPrefix(pending);
          EndLine(segment);
          pending := following;
        } else {
          Hold(pending);
          pending := [];
        }
      }
    }

    /** A segment and its newline complete a line. */
    method EndLine(segment: seq<Byte>)
      requires Valid() && Find(segment) == |segment|
      modifies this
      ensures Valid() && consumed == old(consumed) + (segment + [NEWLINE])
    {
      LinePiece(consumed, segment);
      EntriesAppend(Lines(consumed), Rest(consumed) + segment);
      if overflow {
        errors := errors + [Omitted];
        overflow := false;
      } else if |buffer| + |segment| > STDERR_LINE_LIMIT {
        errors := errors + [Omitted];
      } else {
        buffer := buffer + segment;
        errors := errors + [Line(buffer)];
      }
      buffer := [];
      consumed := consumed + (segment + [NEWLINE]);
    }

    /** A segment without a newline is held back, or dropped once the line is too long. */
    method Hold(segment: seq<Byte>)
      requires Valid() && Find(segment) == |segment|
      modifies this
      ensures Valid() && consumed == old(consumed) + segment
    {
      PlainPiece(consumed, segment);
      if !overflow && |buffer| + |segment| > STDERR_LINE_LIMIT {
        buffer := [];
        overflow := true;
      } else if !overflow {
        buffer := buffer + segment;
      }
      consumed := consumed + segment;
    }

    /** At the end of the stream the last line is reported, or omitted if too long. */
    method Finish()
      requires Valid()
      modifies this
      ensures errors == Entries(Frames(old(consumed)))
    {
      EntriesAppend(Lines(consumed), Rest(consumed));
      assert Lines(consumed) + [] == Lines(consumed);
      if overflow {
        errors := errors + [Omitted];
        overflow := false;
      } else if buffer != [] {
        errors := errors + [Line(buffer)];
        buffer := [];
      }
    }
  }

  lemma Reassociate(a: seq<Byte>, b: seq<Byte>, c: seq<Byte>, whole: seq<Byte>)
    requires |whole| == |b| + |c| && whole[..|b|] == b && whole[|b|..] == c
    ensures (a + b) + c == a + whole
  {
  }

  lemma FindPrefix(s: seq<Byte>)
    requires Find(s) < |s|
    ensures Find(s[..Find(s)]) == Find(s)
  {
    var piece := s[..Find(s)];
    forall k | 0 <= k < |piece| ensures piece[k] != NEWLINE {
    }
  }

  /** However a stream is cut into chunks, the entries are those of its frames,
      each over-long one replaced by a single notice. */
  method FrameStderr(chunks: seq<seq<Byte>>) returns (errors: seq<Entry>)
    ensures errors == Entries(Frames(Concat(chunks)))
  {
    var framer := new StderrFramer();
    var i := 0;
    while i < |chunks|
      invariant i <= |chunks| && framer.Valid() && framer.consumed == Concat(chunks[..i])
    {
      assert chunks[..i + 1][..i] == chunks[..i];
      framer.Consume(chunks[i]);
      i := i + 1;
    }
    assert chunks[..i] == chunks;
    framer.Finish();
    return framer.errors;
  }

  // ---------------------------------------------------------------------
  // The rolling tail
  // ---------------------------------------------------------------------

  /** The last `limit` characters of a text. */
  function Last(limit: int, text: string): string {
    if limit <= 0 then ""
    else if |text| <= limit then text
    else text[|text| - limit..]
  }

  function Flat(parts: seq<string>): string {
    if parts == [] then "" else parts[0] + Flat(parts[1..])
  }

  lemma {:induction false} FlatSnoc(parts: seq<string>, text: string)
    ensures Flat(parts + [text]) == Flat(parts) + text
  {
    if parts == [] {
      assert [] + [text] == [text];
      assert Flat([text]) == text + Flat([text][1..]);
    } else {
      assert (parts + [text])[1..] == parts[1..] + [text];
      FlatSnoc(parts[1..], text);
    }
  }

  lemma FlatCons(text: string, parts: seq<string>)
    ensures Flat([text] + parts) == text + Flat(parts)
  {
    assert ([text] + parts)[1..] == parts;
  }

  /** Only the tail of what came before can still matter. */
  lemma LastOfLast(limit: int, text: string, more: string)
    ensures Last(limit, Last(limit, text) + more) == Last(limit, text + more)
  {
  }

  predicate Suffix(text: string, full: string) {
    |text| <= |full| && text == full[|full| - |text|..]
  }

  lemma SuffixIsLast(limit: int, text: string, full: string)
    requires Suffix(text, full) && (|text| >= limit || |text| == |full|) && (|text| <= limit || text == "")
    ensures text == Last(limit, full)
  {
  }

  /** Dropping characters from the front of a suffix leaves a shorter suffix. */
  lemma DropFront(first: string, rest: string, full: string, k: nat)
    requires k <= |first| && Suffix(first + rest, full)
    ensures Suffix(first[k..] + rest, full)
    ensures first[|first|..] + rest == rest
  {
    assert first[k..] + rest == (first + rest)[k..];
  }

  class TailBuffer {
    const limit: int
    var parts: seq<string>
    var size: nat
    ghost var joined: string

    ghost predicate Valid()
      reads this
    {
      && Flat(parts) == Last(limit, joined) && size == |Flat(parts)|
      && (forall i :: 0 <= i < |parts| ==> parts[i] != "")
    }

    constructor (limit: int)
      ensures Valid() && this.limit == limit && joined == ""
    {
      this.limit := limit;
      parts, size, joined := [], 0, "";
    }

    /** Append a text after its separator and drop what exceeds the limit. */
    method Append(value: string, separator: string)
      requires Valid()
      modifies this
      ensures Valid()
      ensures joined == if value == "" then old(joined)
                        else if old(joined) == "" || limit <= 0 then old(joined) + value
                        else old(joined) + (separator + value)
    {
      if value == "" {
        return;
      }
      assert parts != [] ==> parts[0] <= Flat(parts);
      var text := if parts != [] then separator + value else value;
      FlatSnoc(parts, text);
      LastOfLast(limit, joined, text);
      joined := joined + text;
      parts := parts + [text];
      size := size + |text|;
      Trim();
    }

    /** What is kept is a suffix of the full text, in nonempty parts. */
    ghost predicate Keeps(full: string)
      reads this
    {
      && size == |Flat(parts)| && Suffix(Flat(parts), full)
      && (forall i :: 0 <= i < |parts| ==> parts[i] != "")
    }

    /** Drop characters from the front until the limit holds. */
    method Trim()
      requires size == |Flat(parts)| && forall i :: 0 <= i < |parts| ==> parts[i] != ""
      modifies this`parts, this`size
      ensures Flat(parts) == Last(limit, old(Flat(parts))) && size == |Flat(parts)|
      ensures forall i :: 0 <= i < |parts| ==> parts[i] != ""
    {
      ghost var full := Flat(parts);
      while size > limit && parts != []
        invariant Keeps(full) && (size >= limit || size == |full|)
        decreases size
      {
        DropOnce(full);
      }
      SuffixIsLast(limit, Flat(parts), full);
    }

    /** Drop the first part, or as much of it as exceeds the limit. */
    method DropOnce(ghost full: string)
      requires Keeps(full) && parts != [] && size > limit
      modifies this`parts, this`size
      ensures Keeps(full) && limit <= size < old(size)
    {
      var excess := size - limit;
      var first, rest := parts[0], parts[1..];
      if |first| <= excess {
        DropFront(first, Flat(rest), full, |first|);
        parts := rest;
        size := size - |first|;
      } else {
        DropFront(first, Flat(rest), full, excess);
        FlatCons(first[excess..], rest);
        parts := [first[excess..]] + rest;
        size := size - excess;
      }
    }

    method Value() returns (text: string)
      requires Valid()
      ensures text == Last(limit, joined)
    {
      text := "";
      var i := 0;
      while i < |parts|
        invariant i <= |parts| && text + Flat(parts[i..]) == Flat(parts)
      {
        text := text + parts[i];
        i := i + 1;
      }
    }
  }
}
