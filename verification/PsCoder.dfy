/** The differential line coder of PostScript output, and the decoder program sent with it. */
module PsCoder {
  import opened Bits

  function Complement(s: seq<byte>): (r: seq<byte>)
    ensures |r| == |s| && forall i :: 0 <= i < |s| ==> r[i] == 255 - s[i]
  {
    seq(|s|, i requires 0 <= i < |s| => 255 - s[i])
  }

  /** n equal bytes. */
  function Repeated(v: byte, n: nat): (r: seq<byte>)
    ensures |r| == n && forall i :: 0 <= i < n ==> r[i] == v
  {
    seq(n, _ => v)
  }

  /** s from place i on, overwritten by t. */
  function Overwrite(s: seq<byte>, i: nat, t: seq<byte>): (r: seq<byte>)
    requires i + |t| <= |s|
    ensures |r| == |s|
  {
    s[..i] + t + s[i + |t|..]
  }

  // ----- the decoder -----

  datatype Read = Read(buf: seq<byte>, rest: seq<byte>) | Fail

  datatype Move = Move(used: nat, buf: seq<byte>, i: nat) | Stuck

  /** One turn of the readbuf loop: stuck on missing bytes or writes past the end. */
  function NextMove(s: seq<byte>, buf: seq<byte>, i: nat): (m: Move)
    requires s != []
    ensures m.Move? ==> 1 <= m.used <= |s|
  {
    var v := s[0];
    if v == 0 then Move(1, buf, i + |buf|)
    else if v <= 127 then
      (if 1 + v > |s| || i + v > |buf| then Stuck else Move(1 + v, Overwrite(buf, i, s[1..1 + v]), i + v))
    else if v == 255 then
      (if |s| < 3 || i + s[1] > |buf| then Stuck else Move(3, Overwrite(buf, i, Repeated(s[2], s[1])), i + s[1]))
    else Move(1, buf, i + (v - 127))
  }

  /** The readbuf program: fill the buffer from place i on. */
  function ReadBuf(s: seq<byte>, buf: seq<byte>, i: nat): Read
    decreases |s|
  {
    if i >= |buf| then Read(buf, s)
    else if s == [] then Fail
    else
      match NextMove(s, buf, i)
      case Stuck => Fail
      case Move(used, buf', i') => ReadBuf(s[used..], buf', i')
  }

  /** k lines read one after another, each starting from the one before. */
  datatype Lines = Lines(lines: seq<seq<byte>>, rest: seq<byte>) | NoLines

  function ReadLines(s: seq<byte>, buf: seq<byte>, k: nat): Lines {
    if k == 0 then Lines([], s) else
      match ReadLines(s, buf, k - 1)
      case NoLines => NoLines
      case Lines(done, rest) =>
        match ReadBuf(rest, if done == [] then buf else done[|done| - 1], 0)
        case Fail => NoLines
        case Read(line, rest') => Lines(done + [line], rest')
  }

  lemma MoveMore(s: seq<byte>, t: seq<byte>, buf: seq<byte>, i: nat)
    requires s != [] && NextMove(s, buf, i).Move?
    ensures NextMove(s + t, buf, i) == NextMove(s, buf, i)
  {
    hide Overwrite;
    TailOf(s, t, NextMove(s, buf, i).used);
  }

  /** Bytes after those read do not matter. */
  lemma {:induction false} ReadMore(s: seq<byte>, t: seq<byte>, buf: seq<byte>, i: nat)
    requires ReadBuf(s, buf, i).Read?
    ensures ReadBuf(s + t, buf, i) == ReadBuf(s, buf, i).(rest := ReadBuf(s, buf, i).rest + t)
    decreases |s|
  {
    hide NextMove;
    if i < |buf| {
      var m := NextMove(s, buf, i);
      MoveMore(s, t, buf, i);
      TailOf(s, t, m.used);
      ReadMore(s[m.used..], t, m.buf, m.i);
    }
  }

  lemma TailOf(s: seq<byte>, t: seq<byte>, k: nat)
    requires 1 <= k <= |s|
    ensures (s + t)[k..] == s[k..] + t && (s + t)[1..k] == s[1..k] && forall i :: 0 <= i < k ==> (s + t)[i] == s[i]
  {
  }

  lemma {:induction false} ReadMoreLines(s: seq<byte>, t: seq<byte>, buf: seq<byte>, k: nat)
    requires ReadLines(s, buf, k).Lines?
    ensures ReadLines(s + t, buf, k) == ReadLines(s, buf, k).(rest := ReadLines(s, buf, k).rest + t)
    ensures |ReadLines(s, buf, k).lines| == k
  {
    hide ReadBuf;
    if k != 0 {
      ReadMoreLines(s, t, buf, k - 1);
      var r := ReadLines(s, buf, k - 1);
      ReadMore(r.rest, t, if r.lines == [] then buf else r.lines[|r.lines| - 1], 0);
    }
  }

  // ----- commands -----

  /** What the bytes say: nothing changed, n bytes unchanged, n equal bytes, or literal bytes. */
  datatype Command = Same | Skip(n: nat) | Run(n: nat, v: byte) | Data(bytes: seq<byte>)

  /** Every count fits its code range. */
  predicate Fits(c: Command) {
    match c
    case Same => true
    case Skip(n) => 1 <= n <= 127
    case Run(n, v) => 1 <= n <= 255
    case Data(b) => 1 <= |b| <= 127
  }

  function Code(c: Command): seq<byte>
    requires Fits(c)
  {
    match c
    case Same => [0]
    case Skip(n) => [n + 127]
    case Run(n, v) => [255, n, v]
    case Data(b) => [|b|] + b
  }

  function Size(c: Command, len: nat): nat {
    match c
    case Same => len
    case Skip(n) => n
    case Run(n, v) => n
    case Data(b) => |b|
  }

  function Effect(c: Command, buf: seq<byte>, i: nat): (r: seq<byte>)
    requires i + Size(c, 0) <= |buf|
    ensures |r| == |buf|
  {
    match c
    case Same => buf
    case Skip(n) => buf
    case Run(n, v) => Overwrite(buf, i, Repeated(v, n))
    case Data(b) => Overwrite(buf, i, b)
  }

  /** One command read. */
  lemma ReadCommand(c: Command, rest: seq<byte>, buf: seq<byte>, i: nat)
    requires Fits(c) && i < |buf| && i + Size(c, 0) <= |buf|
    ensures ReadBuf(Code(c) + rest, buf, i) == ReadBuf(rest, Effect(c, buf, i), i + Size(c, |buf|))
  {
    hide Overwrite;
    var s := Code(c) + rest;
    match c
    case Same => assert s[1..] == rest;
    case Skip(n) => assert s[1..] == rest;
    case Run(n, v) => assert s[3..] == rest;
    case Data(b) => assert s[1 + |b|..] == rest && s[1..1 + |b|] == b;
  }

  /** Commands that bring the buffer from place 0 to place i, as far as it then is. */
  ghost predicate Reaches(out: seq<byte>, from: seq<byte>, buf: seq<byte>, i: nat) {
    forall rest: seq<byte> {:trigger ReadBuf(rest, buf, i)} {:trigger out + rest} ::
      ReadBuf(out + rest, from, 0) == ReadBuf(rest, buf, i)
  }

  lemma ReachesStart(from: seq<byte>)
    ensures Reaches([], from, from, 0)
  {
    forall rest: seq<byte> ensures ReadBuf([] + rest, from, 0) == ReadBuf(rest, from, 0) {
      assert [] + rest == rest;
    }
  }

  lemma ReachesNext(out: seq<byte>, from: seq<byte>, buf: seq<byte>, i: nat, c: Command)
    requires Reaches(out, from, buf, i) && Fits(c) && i < |buf| && i + Size(c, 0) <= |buf|
    ensures Reaches(out + Code(c), from, Effect(c, buf, i), i + Size(c, |buf|))
  {
    hide ReadBuf, Effect, Code, Size, Fits;
    forall rest: seq<byte> {:trigger ReadBuf(rest, Effect(c, buf, i), i + Size(c, |buf|))}
      ensures ReadBuf(out + Code(c) + rest, from, 0) == ReadBuf(rest, Effect(c, buf, i), i + Size(c, |buf|))
    {
      assert out + Code(c) + rest == out + (Code(c) + rest);
      ReadCommand(c, rest, buf, i);
    }
  }

  /** The buffer when the first l bytes are those of the line. */
  function Mixed(line: seq<byte>, from: seq<byte>, l: nat): (r: seq<byte>)
    requires l <= |line| == |from|
    ensures |r| == |line|
  {
    Complement(line)[..l] + from[l..]
  }

  lemma DataStep(line: seq<byte>, from: seq<byte>, l: nat, i: nat)
    requires l <= i <= |line| == |from|
    ensures Overwrite(Mixed(line, from, l), l, Complement(line)[l..i]) == Mixed(line, from, i)
  {
  }

  lemma SkipStep(line: seq<byte>, from: seq<byte>, i: nat, j: nat)
    requires i <= j <= |line| == |from| && forall k :: i <= k < j ==> from[k] == 255 - line[k]
    ensures Mixed(line, from, i) == Mixed(line, from, j)
  {
  }

  lemma RunStep(line: seq<byte>, from: seq<byte>, i: nat, j: nat, v: byte)
    requires i <= j <= |line| == |from| && forall k :: i <= k < j ==> line[k] == v
    ensures Overwrite(Mixed(line, from, i), i, Repeated(255 - v, j - i)) == Mixed(line, from, j)
  {
  }

  /** Code for bytes i to j, which are as in the line before. */
  lemma ReachesSkip(out: seq<byte>, from: seq<byte>, line: seq<byte>, i: nat, j: nat)
    requires i < j <= |line| == |from| && j - i <= 127 && forall k :: i <= k < j ==> from[k] == 255 - line[k]
    requires Reaches(out, from, Mixed(line, from, i), i)
    ensures Reaches(out + [j - i + 127], from, Mixed(line, from, j), j)
  {
    hide Reaches, Mixed;
    SkipStep(line, from, i, j);
    ReachesNext(out, from, Mixed(line, from, i), i, Skip(j - i));
  }

  /** Code for bytes i to j, which are equal. */
  lemma ReachesRun(out: seq<byte>, from: seq<byte>, line: seq<byte>, i: nat, j: nat)
    requires i < j <= |line| == |from| && j - i <= 255 && forall k :: i <= k < j ==> line[k] == line[i]
    requires Reaches(out, from, Mixed(line, from, i), i)
    ensures Reaches(out + [255, j - i, 255 - line[i]], from, Mixed(line, from, j), j)
  {
    hide Reaches, Mixed;
    RunStep(line, from, i, j, line[i]);
    ReachesNext(out, from, Mixed(line, from, i), i, Run(j - i, 255 - line[i]));
  }

  // ----- the coder -----

  class PsWriter {
    var out: seq<byte>          // bytes written for the current page
    var last: seq<byte>         // the line before
    var pslines: nat            // lines written on the page
    const n: nat                // bytes in a line
    ghost var start: seq<byte>  // what the decoder's buffer held when the page was begun
    ghost var lines: seq<seq<byte>>

    /** The decoder's buffer after the lines written so far. */
    ghost function Buffer(): seq<byte>
      reads this
    {
      if lines == [] then start else Complement(lines[|lines| - 1])
    }

    ghost predicate Valid()
      reads this
    {
      && |start| == n && pslines == |lines|
      && (forall i :: 0 <= i < |lines| ==> |lines[i]| == n)
      && (lines != [] ==> last == lines[|lines| - 1])
      && ReadLines(out, start, |lines|) == Lines(Complements(lines), Unread(n, |lines|))
    }

    constructor (n: nat, ghost start: seq<byte>)
      requires |start| == n
      ensures Valid() && lines == [] && this.n == n && this.start == start && out == []
    {
      this.n, this.start := n, start;
      out, last, pslines, lines := [], [], 0, [];
    }

    /** Begin a page, whatever the decoder's buffer holds. */
    method BeginPage(ghost buffer: seq<byte>)
      requires |buffer| == n
      modifies this
      ensures Valid() && lines == [] && out == [] && start == buffer
    {
      out, pslines, lines, start := [], 0, [], buffer;
    }

    /** Literal bytes, if any: the bytes of the line from l to i. */
    method PutData(code: seq<byte>, buf: seq<byte>, l: nat, i: nat) returns (r: seq<byte>)
      requires l <= i <= |buf| == n && i - l <= 127 && |Buffer()| == n
      requires n > 0 ==> Reaches(code, Buffer(), Mixed(buf, Buffer(), l), l)
      ensures n > 0 ==> Reaches(r, Buffer(), Mixed(buf, Buffer(), i), i)
      ensures i == l ==> r == code
    {
      hide Reaches, Mixed;
      r := code;
      if i > l {
        var data := Complement(buf)[l..i];
        DataStep(buf, Buffer(), l, i);
        ReachesNext(code, Buffer(), Mixed(buf, Buffer(), l), l, Data(data));
        r := code + ([|data|] + data);
      }
    }

    /** How far the line is as the one before, from i on, at most 127 bytes. */
    method CopyLength(buf: seq<byte>, i: nat, max: nat) returns (j: nat)
      requires i <= |buf| == n && Valid()
      ensures i <= j <= |buf| && j - i <= max
      ensures forall k :: i <= k < j ==> Buffer()[k] == 255 - buf[k]
    {
      j := i;
      while j < |buf| && pslines > 0 && buf[j] == last[j] && j - i < max
        invariant i <= j <= |buf| && j - i <= max
        invariant forall k :: i <= k < j ==> Buffer()[k] == 255 - buf[k]
      {
        j := j + 1;
      }
    }

    method RunLength(buf: seq<byte>, i: nat) returns (j: nat)
      requires i < |buf|
      ensures i < j <= |buf| && j - i <= 255 && forall k :: i <= k < j ==> buf[k] == buf[i]
    {
      j := i + 1;
      while j < |buf| && buf[j] == buf[i] && j - i < 255
        invariant i < j <= |buf| && j - i <= 255 && forall k :: i <= k < j ==> buf[k] == buf[i]
      {
        j := j + 1;
      }
    }

    /** One decision at byte i, with the bytes from l on not yet coded. */
    method EncodeAt(code: seq<byte>, buf: seq<byte>, l: nat, i: nat) returns (r: seq<byte>, l': nat, i': nat)
      requires Valid() && |buf| == n && l <= i < n && i - l <= 127
      requires Reaches(code, Buffer(), Mixed(buf, Buffer(), l), l)
      ensures l' <= i' <= n && i' - l' <= 127 && (i' > i || (i' == i && l' > l))
      ensures Reaches(r, Buffer(), Mixed(buf, Buffer(), l'), l')
    {
      BufferLength();
      hide Reaches, Mixed, Valid, Buffer;
      ghost var from := Buffer();
      var j := CopyLength(buf, i, 127);
      if j - i > 2 {
        r := PutData(code, buf, l, i);
        ReachesSkip(r, from, buf, i, j);
        r, l', i' := r + [j - i + 127], j, j;
      } else {
        j := RunLength(buf, i);
        if j - i > 4 {
          r := PutData(code, buf, l, i);
          ReachesRun(r, from, buf, i, j);
          r, l', i' := r + [255, j - i, 255 - buf[i]], j, j;
        } else if i - l >= 127 {
          r := PutData(code, buf, l, i);
          l', i' := i, i;
        } else {
          r, l', i' := code, l, i + 1;
        }
      }
    }

    lemma BufferLength()
      requires Valid()
      ensures |Buffer()| == n
    {
    }

    /** The code of a line; a line of no bytes is coded as one like the line before. */
    method EncodeLine(buf: seq<byte>) returns (code: seq<byte>)
      requires Valid() && |buf| == n
      ensures n > 0 ==> Reaches(code, Buffer(), Complement(buf), n)
      ensures n == 0 ==> code == [0]
    {
      BufferLength();
      hide Reaches, Mixed, Valid, Buffer;
      ghost var from := Buffer();
      ReachesStart(from);
      NothingMixed(buf, from);
      code := [];
      var l, i := 0, 0;
      var j := CopyLength(buf, 0, n);
      if j == n {
        SkipStep(buf, from, 0, n);
        if n > 0 { ReachesNext(code, from, Mixed(buf, from, 0), 0, Same); }
        code := code + [0];
        l, i := n, n;
      }
      while i < n
        invariant 0 <= l <= i <= n && i - l <= 127
        invariant if n == 0 then code == [0] else Reaches(code, from, Mixed(buf, from, l), l)
        decreases n - i, i - l
      {
        code, l, i := EncodeAt(code, buf, l, i);
      }
      code := PutData(code, buf, l, i);
      AllMixed(buf, from);
    }

    /** Write a line: the decoder's next buffer is its complement. */
    method WriteLine(buf: seq<byte>)
      requires Valid() && |buf| == n
      modifies this`out, this`last, this`pslines, this`lines
      ensures Valid() && lines == old(lines) + [buf] && old(out) <= out
    {
      hide ReadLines, ReadBuf;
      var code := EncodeLine(buf);
      if n == 0 {
        EmptyLineUnread(out, start, lines, buf);
      } else {
        OneMoreLine(out, code, start, lines, buf);
      }
      out := out + code;
      last := buf;
      pslines := pslines + 1;
      lines := lines + [buf];
    }
  }

  /** What the decoder leaves unread after k lines of n bytes: the codes of lines of no bytes. */
  function Unread(n: nat, k: nat): (r: seq<byte>)
    ensures |r| == if n == 0 then k else 0
  {
    if n == 0 then Repeated(0, k) else []
  }

  function Complements(lines: seq<seq<byte>>): (r: seq<seq<byte>>)
    ensures |r| == |lines| && forall i :: 0 <= i < |lines| ==> r[i] == Complement(lines[i])
  {
    seq(|lines|, i requires 0 <= i < |lines| => Complement(lines[i]))
  }

  lemma NothingMixed(line: seq<byte>, from: seq<byte>)
    requires |line| == |from|
    ensures Mixed(line, from, 0) == from
  {
  }

  lemma AllMixed(line: seq<byte>, from: seq<byte>)
    requires |line| == |from|
    ensures Mixed(line, from, |line|) == Complement(line)
  {
  }

  lemma OneMoreLine(out: seq<byte>, code: seq<byte>, start: seq<byte>, lines: seq<seq<byte>>, line: seq<byte>)
    requires ReadLines(out, start, |lines|) == Lines(Complements(lines), [])
    requires Reaches(code, if lines == [] then start else Complement(lines[|lines| - 1]), Complement(line), |line|)
    ensures ReadLines(out + code, start, |lines| + 1) == Lines(Complements(lines + [line]), [])
  {
    hide Reaches, ReadBuf, Complement, ReadLines;
    ReadMoreLines(out, code, start, |lines|);
    LinesNext(out + code, start, |lines|);
    var from := if lines == [] then start else Complement(lines[|lines| - 1]);
    ReachesEnd(code, from, Complement(line));
    assert [] + code == code;
    assert Complements(lines + [line]) == Complements(lines) + [Complement(line)];
  }

  lemma LinesNext(s: seq<byte>, buf: seq<byte>, k: nat)
    requires ReadLines(s, buf, k).Lines?
    ensures var r := ReadLines(s, buf, k);
      var next := ReadBuf(r.rest, if r.lines == [] then buf else r.lines[|r.lines| - 1], 0);
      ReadLines(s, buf, k + 1) == if next.Fail? then NoLines else Lines(r.lines + [next.buf], next.rest)
  {
    hide ReadBuf;
  }

  lemma ReachesEnd(code: seq<byte>, from: seq<byte>, buf: seq<byte>)
    requires Reaches(code, from, buf, |buf|)
    ensures ReadBuf(code, from, 0) == Read(buf, [])
  {
    assert code + [] == code;
    assert ReadBuf([], buf, |buf|) == Read(buf, []);
  }

  /** The decoder does not read the code of a line of no bytes. */
  lemma EmptyLineUnread(out: seq<byte>, start: seq<byte>, lines: seq<seq<byte>>, line: seq<byte>)
    requires start == [] && line == [] && forall i :: 0 <= i < |lines| ==> lines[i] == []
    requires ReadLines(out, start, |lines|) == Lines(Complements(lines), Repeated(0, |lines|))
    ensures ReadLines(out + [0], start, |lines| + 1) == Lines(Complements(lines + [line]), Repeated(0, |lines| + 1))
  {
    hide ReadLines;
    ReadMoreLines(out, [0], start, |lines|);
    LinesNext(out + [0], start, |lines|);
    assert Complements(lines + [line]) == Complements(lines) + [Complement(line)];
    assert Repeated(0, |lines|) + [0] == Repeated(0, |lines| + 1);
    assert Complement(line) == [];
  }
}
