/** The streaming indenter and wrapper (releng/lib/uiutil.py, Indent and its lexer). */
module Indenter {
  const ESC: char := '\U{1B}'

  predicate IsLetter(c: char) {
    'a' <= c <= 'z' || 'A' <= c <= 'Z'
  }

  // ---------------------------------------------------------------- the lexer

  predicate StartsControl(text: string) {
    |text| >= 2 && text[0] == ESC && text[1] == '['
  }

  /** One past the first letter at or after `i`, or 0 if there is none. */
  function AfterLetter(text: string, i: nat): (n: nat)
    requires i <= |text|
    ensures n <= |text| && (n > 0 ==> n > i)
    decreases |text| - i
  {
    if i == |text| then 0
    else if IsLetter(text[i]) then i + 1
    else AfterLetter(text, i + 1)
  }

  /** Length of the character or control sequence at the front; 0 asks for more input. */
  function TokenLength(text: string): (n: nat)
    ensures n <= |text|
  {
    if text == [ESC] || text == [] then 0
    else if StartsControl(text) then AfterLetter(text, 2)
    else 1
  }

  method LexCharOrCs(text: string) returns (c: string, rest: string)
    ensures c == text[..TokenLength(text)] && rest == text[TokenLength(text)..]
  {
    if text == [ESC] {
      return "", text;
    }
    var i := if text == [] then 0 else 1;
    if StartsControl(text) {
      i := 2;
      while i < |text| && !IsLetter(text[i])
        invariant 2 <= i <= |text|
        invariant AfterLetter(text, 2) == AfterLetter(text, i)
      {
        i := i + 1;
      }
      if i == |text| {
        return "", text;
      }
      i := i + 1;
    }
    return text[..i], text[i..];
  }

  lemma {:induction false} AfterLetterStable(a: string, b: string, i: nat)
    requires i <= |a| && AfterLetter(a, i) > 0
    ensures AfterLetter(a + b, i) == AfterLetter(a, i)
    decreases |a| - i
  {
    if !IsLetter(a[i]) {
      AfterLetterStable(a, b, i + 1);
    }
  }

  /** More input never changes a token that is already complete. */
  lemma TokenStable(a: string, b: string)
    requires TokenLength(a) > 0
    ensures TokenLength(a + b) == TokenLength(a)
  {
    if StartsControl(a) {
      AfterLetterStable(a, b, 2);
    }
  }

  // ---------------------------------------------------------------- what is written

  /** One thing put on the output: the indent, a line break of the input, a line break made by
      wrapping, a carriage return, a control sequence or an ordinary character. */
  datatype Piece = Pad | Newline | Wrap | Return | Control(s: string) | Visible(c: char)

  function Text(indent: string, p: Piece): string {
    match p
    case Pad => indent
    case Newline => "\n"
    case Wrap => "\n"
    case Return => "\r"
    case Control(s) => s
    case Visible(c) => [c]
  }

  function Flatten(indent: string, ps: seq<Piece>): string {
    if ps == [] then "" else Flatten(indent, ps[..|ps| - 1]) + Text(indent, ps[|ps| - 1])
  }

  /** What is left once indents and wrap breaks are erased. */
  function Erase(ps: seq<Piece>): string {
    if ps == [] then ""
      else Erase(ps[..|ps| - 1]) + (if ps[|ps| - 1].Pad? || ps[|ps| - 1].Wrap? then "" else Text("", ps[|ps| - 1]))
  }

  /** _cur_col and _print_indent. */
  datatype Cursor = Cursor(col: nat, pad: nat)

  function Padding(cur: Cursor, below: nat): seq<Piece> {
    if cur.pad < below then [Pad] else []
  }

  /** One token. A character that no longer fits first ends the line, then starts the next. */
  function Emit(columns: int, cur: Cursor, t: string): (r: (Cursor, seq<Piece>))
    requires t != []
  {
    if t == "\n" then (Cursor(0, 0), Padding(cur, 1) + [Newline])
    else if t == "\r" then (Cursor(0, if cur.pad < 1 then cur.pad else 1), [Return])
    else if StartsControl(t) then (Cursor(cur.col, 2), Padding(cur, 2) + [Control(t)])
    else if columns > 0 && cur.col >= columns then (Cursor(1, 2), Padding(cur, 1) + [Wrap] + [Pad] + [Visible(t[0])])
    else (Cursor(cur.col + 1, 2), Padding(cur, 2) + [Visible(t[0])])
  }

  datatype Outcome = Outcome(cur: Cursor, pieces: seq<Piece>, rest: string)

  /** All complete tokens of the text, in order. */
  function Feed(columns: int, cur: Cursor, text: string): (r: Outcome)
    decreases |text|
  {
    var n := TokenLength(text);
    if n == 0 then Outcome(cur, [], text)
    else
      var (next, ps) := Emit(columns, cur, text[..n]);
      var more := Feed(columns, next, text[n..]);
      Outcome(more.cur, ps + more.pieces, more.rest)
  }

  // ---------------------------------------------------------------- chunks do not matter

  lemma {:induction false} FeedSplit(columns: int, cur: Cursor, a: string, b: string)
    ensures var x := Feed(columns, cur, a);
      var y := Feed(columns, x.cur, x.rest + b);
      Feed(columns, cur, a + b) == Outcome(y.cur, x.pieces + y.pieces, y.rest)
    decreases |a|
  {
    var n := TokenLength(a);
    if n == 0 {
      var y := Feed(columns, cur, a + b);
      assert [] + y.pieces == y.pieces;
    } else {
      TokenStable(a, b);
      assert (a + b)[..n] == a[..n] && (a + b)[n..] == a[n..] + b;
      var (next, ps) := Emit(columns, cur, a[..n]);
      FeedSplit(columns, next, a[n..], b);
      var x := Feed(columns, next, a[n..]);
      var y := Feed(columns, x.cur, x.rest + b);
      assert ps + (x.pieces + y.pieces) == (ps + x.pieces) + y.pieces;
    }
  }

  function Concat(chunks: seq<string>): string {
    if chunks == [] then "" else chunks[0] + Concat(chunks[1..])
  }

  /** One write per chunk, each starting from what the previous one left over. */
  function FeedChunks(columns: int, cur: Cursor, rest: string, chunks: seq<string>): Outcome
    decreases |chunks|
  {
    if chunks == [] then Outcome(cur, [], rest)
    else
      var x := Feed(columns, cur, rest + chunks[0]);
      var y := FeedChunks(columns, x.cur, x.rest, chunks[1..]);
      Outcome(y.cur, x.pieces + y.pieces, y.rest)
  }

  /** Main result: any split of a text into chunks gives the same output and the same state. */
  lemma {:induction false} ChunkingIrrelevant(columns: int, cur: Cursor, rest: string, chunks: seq<string>)
    requires TokenLength(rest) == 0
    ensures FeedChunks(columns, cur, rest, chunks) == Feed(columns, cur, rest + Concat(chunks))
    decreases |chunks|
  {
    FeedStops(columns, cur, rest);
    hide Feed, TokenLength;
    if chunks == [] {
      assert rest + "" == rest;
    } else {
      var all := Concat(chunks[1..]);
      FeedSplit(columns, cur, rest + chunks[0], all);
      assert rest + (chunks[0] + all) == (rest + chunks[0]) + all;
      var x := Feed(columns, cur, rest + chunks[0]);
      FeedLeavesIncomplete(columns, cur, rest + chunks[0]);
      ChunkingIrrelevant(columns, x.cur, x.rest, chunks[1..]);
    }
  }

  lemma {:induction false} FeedLeavesIncomplete(columns: int, cur: Cursor, text: string)
    ensures TokenLength(Feed(columns, cur, text).rest) == 0
    decreases |text|
  {
    var n := TokenLength(text);
    if n > 0 {
      FeedLeavesIncomplete(columns, Emit(columns, cur, text[..n]).0, text[n..]);
    }
  }

  // ---------------------------------------------------------------- what the output looks like

  function ColumnAfter(col: nat, p: Piece): nat {
    match p
    case Newline => 0
    case Wrap => 0
    case Return => 0
    case Visible(_) => col + 1
    case _ => col
  }

  /** Reading the pieces from column `col` (and with the line's indent printed or not):
      - no line grows beyond `columns` characters, and a line is wrapped only when it is full;
      - the indent comes before anything else on a line, and is not printed twice. */
  predicate WellLaid(columns: int, col: nat, padded: bool, ps: seq<Piece>)
    decreases |ps|
  {
    ps == [] ||
    (&& (columns > 0 && ps[0].Visible? ==> col < columns)
     && (ps[0].Wrap? ==> columns > 0 && col == columns)
     && (ps[0].Visible? || ps[0].Control? ==> padded)
     && (ps[0].Pad? ==> !padded)
     && WellLaid(columns, ColumnAfter(col, ps[0]), PaddedAfter(padded, ps[0]), ps[1..]))
  }

  function PaddedAfter(padded: bool, p: Piece): bool {
    match p
    case Pad => true
    case Newline => false
    case Wrap => false
    case Return => false
    case _ => padded
  }

  /** The cursor stays within the line, and a line with characters on it has its indent. */
  predicate Sound(columns: int, cur: Cursor) {
    (columns > 0 ==> cur.col <= columns) && cur.pad <= 2 && (cur.col > 0 ==> cur.pad == 2)
  }

  lemma EmitSound(columns: int, cur: Cursor, t: string)
    requires t != [] && Sound(columns, cur)
    ensures Sound(columns, Emit(columns, cur, t).0)
  {
  }

  lemma WellLaidCons(columns: int, col: nat, padded: bool, p: Piece, more: seq<Piece>)
    requires columns > 0 && p.Visible? ==> col < columns
    requires p.Wrap? ==> columns > 0 && col == columns
    requires p.Visible? || p.Control? ==> padded
    requires p.Pad? ==> !padded
    requires WellLaid(columns, ColumnAfter(col, p), PaddedAfter(padded, p), more)
    ensures WellLaid(columns, col, padded, [p] + more)
  {
    assert ([p] + more)[1..] == more;
  }

  /** The indent, if the line still needs it, and then one piece. */
  lemma PaddedWellLaid(columns: int, col: nat, cur: Cursor, below: nat, p: Piece, more: seq<Piece>)
    requires below <= 2 && cur.pad <= 2 && (p.Visible? || p.Control? ==> below == 2) && !p.Pad? && !p.Wrap?
    requires columns > 0 && p.Visible? ==> col < columns
    requires WellLaid(columns, ColumnAfter(col, p), PaddedAfter(cur.pad == 2 || cur.pad < below, p), more)
    ensures WellLaid(columns, col, cur.pad == 2, Padding(cur, below) + [p] + more)
  {
    WellLaidCons(columns, col, cur.pad == 2 || cur.pad < below, p, more);
    if cur.pad < below {
      WellLaidCons(columns, col, false, Pad, [p] + more);
      assert [Pad] + ([p] + more) == [Pad] + [p] + more;
    } else {
      assert [] + [p] + more == [p] + more;
    }
  }

  lemma EmitWellLaid(columns: int, cur: Cursor, t: string, more: seq<Piece>)
    requires t != [] && Sound(columns, cur)
    requires var next := Emit(columns, cur, t).0; WellLaid(columns, next.col, next.pad == 2, more)
    ensures WellLaid(columns, cur.col, cur.pad == 2, Emit(columns, cur, t).1 + more)
  {
    if t == "\n" {
      PaddedWellLaid(columns, cur.col, cur, 1, Newline, more);
    } else if t == "\r" {
      WellLaidCons(columns, cur.col, cur.pad == 2, Return, more);
    } else if StartsControl(t) {
      PaddedWellLaid(columns, cur.col, cur, 2, Control(t), more);
    } else if columns > 0 && cur.col >= columns {
      WellLaidCons(columns, 0, true, Visible(t[0]), more);
      WellLaidCons(columns, 0, false, Pad, [Visible(t[0])] + more);
      WellLaidCons(columns, cur.col, true, Wrap, [Pad] + ([Visible(t[0])] + more));
      assert [Wrap] + ([Pad] + ([Visible(t[0])] + more)) == [] + [Wrap] + [Pad] + [Visible(t[0])] + more;
    } else {
      PaddedWellLaid(columns, cur.col, cur, 2, Visible(t[0]), more);
    }
  }

  /** Main result: whatever is written, the layout rules hold. */
  lemma {:induction false} FeedWellLaid(columns: int, cur: Cursor, text: string)
    requires Sound(columns, cur)
    ensures Sound(columns, Feed(columns, cur, text).cur)
    ensures WellLaid(columns, cur.col, cur.pad == 2, Feed(columns, cur, text).pieces)
    decreases |text|
  {
    var n := TokenLength(text);
    if n > 0 {
      var (next, ps) := Emit(columns, cur, text[..n]);
      var more := Feed(columns, next, text[n..]);
      EmitSound(columns, cur, text[..n]);
      FeedWellLaid(columns, next, text[n..]);
      EmitWellLaid(columns, cur, text[..n], more.pieces);
    }
  }

  lemma Assoc<T>(a: seq<T>, b: seq<T>, c: seq<T>)
    ensures (a + b) + c == a + (b + c)
  {
  }

  lemma Halves<T>(s: seq<T>, n: nat)
    requires n <= |s|
    ensures s[..n] + s[n..] == s
  {
  }

  lemma EraseSnoc(ps: seq<Piece>, p: Piece)
    ensures Erase(ps + [p]) == Erase(ps) + if p.Pad? || p.Wrap? then "" else Text("", p)
  {
    assert (ps + [p])[..|ps|] == ps;
  }

  lemma {:induction false} EraseConcat(a: seq<Piece>, b: seq<Piece>)
    ensures Erase(a + b) == Erase(a) + Erase(b)
  {
    if b == [] {
      assert a + b == a;
    } else {
      var front, p := b[..|b| - 1], b[|b| - 1];
      hide Erase;
      EraseConcat(a, front);
      assert b == front + [p] && a + b == (a + front) + [p];
      var x := if p.Pad? || p.Wrap? then "" else Text("", p);
      assert Erase(b) == Erase(front) + x by { EraseSnoc(front, p); }
      assert Erase(a + b) == Erase(a + front) + x by { EraseSnoc(a + front, p); }
      Assoc(Erase(a), Erase(front), x);
    }
  }

  lemma TokenShape(text: string)
    requires TokenLength(text) > 0
    ensures var t := text[..TokenLength(text)];
      && t != []
      && (!StartsControl(t) ==> t == [t[0]] && TokenLength(text) == 1)
      && (StartsControl(t) <==> StartsControl(text))
  {
  }

  lemma PaddingErases(cur: Cursor, below: nat, p: Piece)
    ensures Erase(Padding(cur, below) + [p]) == if p.Pad? || p.Wrap? then "" else Text("", p)
  {
    EraseSnoc([], Pad);
    assert [] + [Pad] == [Pad];
    EraseSnoc(Padding(cur, below), p);
  }

  lemma EmitErases(columns: int, cur: Cursor, text: string)
    requires TokenLength(text) > 0
    ensures Erase(Emit(columns, cur, text[..TokenLength(text)]).1) == text[..TokenLength(text)]
  {
    var t := text[..TokenLength(text)];
    TokenShape(text);
    hide Erase, TokenLength;
    if t == "\n" {
      PaddingErases(cur, 1, Newline);
    } else if t == "\r" {
      PaddingErases(Cursor(0, 2), 2, Return);
      assert Padding(Cursor(0, 2), 2) + [Return] == [Return];
    } else if StartsControl(t) {
      PaddingErases(cur, 2, Control(t));
    } else if columns > 0 && cur.col >= columns {
      PaddingErases(cur, 1, Wrap);
      EraseSnoc(Padding(cur, 1) + [Wrap], Pad);
      EraseSnoc(Padding(cur, 1) + [Wrap] + [Pad], Visible(t[0]));
    } else {
      PaddingErases(cur, 2, Visible(t[0]));
    }
  }

  /** Main result: erasing what was inserted gives back the input, up to what still waits. */
  lemma {:induction false} FeedErases(columns: int, cur: Cursor, text: string)
    ensures var r := Feed(columns, cur, text);
      Erase(r.pieces) + r.rest == text
    decreases |text|
  {
    var n := TokenLength(text);
    if n > 0 {
      FeedToken(columns, cur, text);
      EmitErases(columns, cur, text);
      hide Feed, Emit, Erase, TokenLength;
      var (next, ps) := Emit(columns, cur, text[..n]);
      var more := Feed(columns, next, text[n..]);
      FeedErases(columns, next, text[n..]);
      EraseConcat(ps, more.pieces);
      Assoc(Erase(ps), Erase(more.pieces), more.rest);
      Halves(text, n);
    }
  }

  // ---------------------------------------------------------------- the class

  /** A wrapped character is a line break and then the same character at the start of a line. */
  lemma WrapIsBreakThenChar(columns: int, cur: Cursor, text: string)
    requires TokenLength(text) == 1 && !StartsControl(text) && text[0] != '\n' && text[0] != '\r'
    requires columns > 0 && cur.col >= columns
    ensures var next := Feed(columns, Cursor(0, 0), text);
      Feed(columns, cur, text) == Outcome(next.cur, Padding(cur, 1) + [Wrap] + next.pieces, next.rest)
  {
    var t := text[..1];
    var more := Feed(columns, Cursor(1, 2), text[1..]);
    assert Emit(columns, Cursor(0, 0), t) == (Cursor(1, 2), [Pad] + [Visible(t[0])]);
    assert Emit(columns, cur, t) == (Cursor(1, 2), Padding(cur, 1) + [Wrap] + [Pad] + [Visible(t[0])]);
    assert Padding(cur, 1) + [Wrap] + ([Pad] + [Visible(t[0])] + more.pieces) ==
      (Padding(cur, 1) + [Wrap] + [Pad] + [Visible(t[0])]) + more.pieces;
  }

  /** One turn of the write loop on an ordinary token. */
  lemma FeedToken(columns: int, cur: Cursor, text: string)
    requires TokenLength(text) > 0
    ensures var n := TokenLength(text);
      var (next, ps) := Emit(columns, cur, text[..n]);
      var more := Feed(columns, next, text[n..]);
      Feed(columns, cur, text) == Outcome(more.cur, ps + more.pieces, more.rest)
  {
  }

  class Indent {
    const indent: string
    const columns: int
    var rest: string
    var curCol: nat
    var printIndent: nat
    var output: string
    ghost var pieces: seq<Piece>
    ghost var received: string

    ghost function Cur(): Cursor
      reads this
    {
      Cursor(curCol, printIndent)
    }

    /** The object is where a single pass over everything received would be. */
    ghost predicate Valid()
      reads this
    {
      output == Flatten(indent, pieces) &&
      Feed(columns, Cursor(0, 0), received) == Outcome(Cur(), pieces, rest)
    }

    constructor (indent: string, width: int)
      ensures Valid() && this.indent == indent && columns == width - |indent| && received == ""
    {
      this.indent, columns := indent, width - |indent|;
      rest, curCol, printIndent, output := "", 0, 0, "";
      pieces, received := [], "";
    }

    method Put(text: string, ghost p: Piece)
      requires output == Flatten(indent, pieces) && text == Text(indent, p)
      modifies this`output, this`pieces
      ensures output == Flatten(indent, pieces) && pieces == old(pieces) + [p]
    {
      output := output + text;
      pieces := pieces + [p];
    }

    method PutIndentBelow(below: nat)
      requires output == Flatten(indent, pieces)
      modifies this`output, this`pieces
      ensures output == Flatten(indent, pieces) && pieces == old(pieces) + Padding(Cur(), below)
    {
      if printIndent < below {
        Put(indent, Pad);
      }
    }

    /** The branches of the loop that write something. `wrapping` marks the line break that the
        loop pushed back onto its own input. */
    method WriteToken(c: string, ghost wrapping: bool) returns (ghost ps: seq<Piece>)
      requires c != [] && output == Flatten(indent, pieces)
      requires !StartsControl(c) ==> |c| == 1
      requires wrapping ==> c == "\n"
      requires c == "\n" || c == "\r" || StartsControl(c) || !(columns > 0 && curCol >= columns)
      modifies this`output, this`pieces, this`curCol, this`printIndent
      ensures output == Flatten(indent, pieces) && pieces == old(pieces) + ps
      ensures (Cur(), ps) == if wrapping then (Cursor(0, 0), Padding(old(Cur()), 1) + [Wrap])
        else Emit(columns, old(Cur()), c)
    {
      hide Flatten;
      ghost var cur := Cur();
      if c == "\n" {
        PutIndentBelow(1);
        Put(c, if wrapping then Wrap else Newline);
        printIndent, curCol := 0, 0;
        ps := Padding(cur, 1) + [if wrapping then Wrap else Newline];
      } else if c == "\r" {
        Put(c, Return);
        printIndent, curCol := if printIndent < 1 then printIndent else 1, 0;
        ps := [Return];
      } else if StartsControl(c) {
        PutIndentBelow(2);
        Put(c, Control(c));
        printIndent := 2;
        ps := Padding(cur, 2) + [Control(c)];
      } else {
        PutIndentBelow(2);
        Put(c, Visible(c[0]));
        printIndent, curCol := 2, curCol + |c|;
        ps := Padding(cur, 2) + [Visible(c[0])];
      }
    }

    /** write: terminates although it pushes text back, and leaves the object where one pass
        over everything received so far would. */
    method Write(text: string) returns (n: nat)
      requires Valid()
      modifies this
      ensures Valid() && received == old(received) + text && n == |text|
    {
      hide Feed, Emit, Flatten, TokenLength;
      FeedSplit(columns, Cursor(0, 0), received, text);
      ghost var done := pieces;
      rest := rest + text;
      received := received + text;
      ghost var goal := Feed(columns, Cur(), rest);
      assert goal == Outcome(goal.cur, [] + goal.pieces, goal.rest);
      ghost var acc: seq<Piece> := [];
      ghost var pushed := false;
      while rest != ""
        invariant output == Flatten(indent, pieces) && pieces == done + acc
        invariant received == old(received) + text
        invariant pushed ==> PushedBack(columns, curCol, rest)
        invariant Remaining(columns, Cur(), if pushed then rest[1..] else rest, acc) == goal
        decreases if pushed then |rest| - 1 else |rest|,
                  if pushed then 1 else if columns > 0 && curCol >= columns then 2 else 0
      {
        ghost var text0, cur0 := rest, Cur();
        var c;
        c, rest := LexCharOrCs(rest);
        if pushed {
          BreakIsToken(text0);
        }
        if c == "" {
          break;
        }
        TokenShape(text0);
        if c == "\n" || c == "\r" || StartsControl(c) || !(columns > 0 && curCol >= columns) {
          if pushed {
            WrapIsBreakThenChar(columns, cur0, text0[1..]);
          } else {
            FeedToken(columns, cur0, text0);
          }
          ghost var ps := WriteToken(c, pushed);
          assert forall more: seq<Piece> :: acc + (ps + more) == (acc + ps) + more;
          acc := acc + ps;
          pushed := false;
        } else {
          rest := "\n" + c + rest;
          pushed := true;
          assert rest[1..] == text0;
        }
      }
      FeedStops(columns, Cur(), rest);
      n := |text|;
    }
  }

  /** The loop has put a line break in front of a character that does not fit. */
  ghost predicate PushedBack(columns: int, col: nat, rest: string) {
    && |rest| >= 2 && rest[0] == '\n' && columns > 0 && col >= columns
    && TokenLength(rest[1..]) == 1 && !StartsControl(rest[1..]) && rest[1] != '\n' && rest[1] != '\r'
  }

  /** The outcome if the rest of the text is fed after the pieces written so far. */
  ghost function Remaining(columns: int, cur: Cursor, text: string, acc: seq<Piece>): Outcome {
    var m := Feed(columns, cur, text);
    Outcome(m.cur, acc + m.pieces, m.rest)
  }

  lemma BreakIsToken(text: string)
    requires text != [] && text[0] == '\n'
    ensures TokenLength(text) == 1
  {
  }

  lemma FeedStops(columns: int, cur: Cursor, text: string)
    ensures TokenLength("") == 0
    ensures TokenLength(text) == 0 ==> Feed(columns, cur, text) == Outcome(cur, [], text)
  {
  }
}
