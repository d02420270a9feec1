/** Display lines from a stream that arrives in arbitrary chunks. */
module LineAssembly {
  import opened Basics

  /** A finished line, or one that was drawn and then overwritten. */
  datatype Output = Line(text: string) | Partial(text: string)

  /** The line being drawn, and whether carriage returns follow it so far. */
  datatype State = State(cur: PlainText, cr: bool)

  const CR := '\r'
  const LF := '\n'

  predicate Plain(s: string) {
    forall i :: 0 <= i < |s| ==> s[i] != CR && s[i] != LF
  }

  type PlainText = s: string | Plain(s) witness ""

  // ----- The automaton -----

  function Emits(st: State, ch: char): seq<Output> {
    if ch == LF then [Line(st.cur)] else if ch != CR && st.cr then [Partial(st.cur)] else []
  }

  function Next(st: State, ch: char): State {
    if ch == CR then State(st.cur, true)
    else if ch == LF then State("", false)
    else if st.cr then State([ch], false)
    else State(st.cur + [ch], false)
  }

  function Outputs(st: State, text: string): seq<Output>
    decreases |text|
  {
    if text == "" then [] else Emits(st, text[0]) + Outputs(Next(st, text[0]), text[1..])
  }

  function After(st: State, text: string): State
    decreases |text|
  {
    if text == "" then st else After(Next(st, text[0]), text[1..])
  }

  function Flushed(st: State): seq<Output> {
    if st.cr then [Partial(st.cur)] else if st.cur != "" then [Line(st.cur)] else []
  }

  lemma {:induction false} OneMore(st: State, text: string, ch: char)
    ensures Outputs(st, text + [ch]) == Outputs(st, text) + Emits(After(st, text), ch)
    ensures After(st, text + [ch]) == Next(After(st, text), ch)
    decreases |text|
  {
    var all := text + [ch];
    if text == "" {
      assert all[1..] == "";
      assert Outputs(Next(st, ch), "") == [];
    } else {
      assert all[1..] == text[1..] + [ch];
      OneMore(Next(st, text[0]), text[1..], ch);
    }
  }

  class LineAssembler {
    var cur: PlainText
    var cr: bool

    ghost function View(): State
      reads this
    {
      State(cur, cr)
    }

    constructor ()
      ensures View() == State("", false)
    {
      cur, cr := "", false;
    }

    method Feed(text: string) returns (out: seq<Output>)
      modifies this
      ensures out == Outputs(old(View()), text)
      ensures View() == After(old(View()), text)
    {
      out := [];
      for i := 0 to |text|
        invariant out == Outputs(old(View()), text[..i])
        invariant View() == After(old(View()), text[..i])
      {
        var ch := text[i];
        OneMore(old(View()), text[..i], ch);
        assert text[..i + 1] == text[..i] + [ch];
        if ch == CR {
          cr := true;
        } else if cr {
          cr := false;
          if ch == LF {
            out := out + [Line(cur)];
            cur := "";
          } else {
            out := out + [Partial(cur)];
            cur := [ch];
          }
        } else if ch == LF {
          out := out + [Line(cur)];
          cur := "";
        } else {
          cur := cur + [ch];
        }
      }
      assert text[..|text|] == text;
    }

    method Flush() returns (out: seq<Output>)
      modifies this
      ensures out == Flushed(old(View()))
      ensures View() == State("", false)
    {
      out := [];
      if cr {
        cr := false;
        out := out + [Partial(cur)];
        cur := "";
      } else if cur != "" {
        out := out + [Line(cur)];
        cur := "";
      }
    }
  }

  // ----- The split of a whole stream -----

  /** Where the first carriage return or line feed is, or the end. */
  function TextEnd(s: string): (n: nat)
    ensures n <= |s| && Plain(s[..n]) && (n < |s| ==> s[n] == CR || s[n] == LF)
  {
    if s == "" || s[0] == CR || s[0] == LF then 0 else
      var n := 1 + TextEnd(s[1..]);
      assert s[..n] == [s[0]] + s[1..][..n - 1];
      n
  }

  /** The stream without its leading carriage returns. */
  function SkipReturns(s: string): (r: string)
    ensures |r| <= |s|
    ensures s != "" && s[0] == CR ==> |r| < |s|
  {
    if s != "" && s[0] == CR then SkipReturns(s[1..]) else s
  }

  /** Text up to a run of carriage returns is a line when a line feed ends the run, and a redraw when
      anything else does; text up to a line feed is a line, and so is what is left at the end. */
  function Split(s: string): seq<Output>
    decreases |s|
  {
    var n := TextEnd(s);
    var rest := SkipReturns(s[n..]);
    if n == |s| then
      if n == 0 then [] else [Line(s)]
    else if rest != "" && rest[0] == LF then
      [Line(s[..n])] + Split(rest[1..])
    else
      [Partial(s[..n])] + Split(rest)
  }

  /** The stream a state stands for. */
  function Pending(st: State): string {
    st.cur + if st.cr then [CR] else ""
  }

  lemma {:induction false} TextEndAt(text: string, rest: string)
    requires Plain(text) && (rest == "" || rest[0] == CR || rest[0] == LF)
    ensures TextEnd(text + rest) == |text|
  {
    var s := text + rest;
    if text != "" {
      assert s[1..] == text[1..] + rest;
      TextEndAt(text[1..], rest);
    } else {
      assert s == rest;
    }
  }

  /** `Split` by what follows the plain text at its head. */
  lemma {:induction false} SplitAt(text: string, rest: string)
    requires Plain(text) && rest != "" && (rest[0] == CR || rest[0] == LF)
    ensures var after := SkipReturns(rest);
            Split(text + rest) == if after != "" && after[0] == LF then [Line(text)] + Split(after[1..])
                else [Partial(text)] + Split(after)
  {
    TextEndAt(text, rest);
    var s := text + rest;
    assert s[..|text|] == text && s[|text|..] == rest;
  }

  lemma {:induction false} SplitPlain(text: PlainText)
    ensures Split(text) == if text == "" then [] else [Line(text)]
  {
    TextEndAt(text, "");
    assert text + "" == text;
  }

  /** One character of the automaton is one character of the stream. */
  lemma {:induction false} StepSplits(st: State, ch: char, rest: string)
    ensures Split(Pending(st) + [ch] + rest) == Emits(st, ch) + Split(Pending(Next(st, ch)) + rest)
  {
    var s := Pending(st) + [ch] + rest;
    hide Split, TextEnd;
    if ch == CR {
      if st.cr {
        assert s == st.cur + ([CR, CR] + rest) && Pending(st) + rest == st.cur + ([CR] + rest);
        assert ([CR, CR] + rest)[1..] == [CR] + rest;
        SplitAt(st.cur, [CR, CR] + rest);
        SplitAt(st.cur, [CR] + rest);
      } else {
        assert Pending(Next(st, ch)) == Pending(st) + [ch];
      }
    } else if st.cr {
      var tail := [CR] + ([ch] + rest);
      assert s == st.cur + tail && tail[1..] == [ch] + rest;
      assert SkipReturns(tail) == [ch] + rest;
      SplitAt(st.cur, tail);
      assert ([ch] + rest)[1..] == rest && "" + rest == rest;
      assert [ch] + "" == [ch];
    } else if ch == LF {
      assert s == st.cur + ([LF] + rest) && ([LF] + rest)[1..] == rest && "" + rest == rest;
      SplitAt(st.cur, [LF] + rest);
    } else {
      assert Pending(Next(st, ch)) == Pending(st) + [ch];
    }
  }

  /** What is fed from a state and then flushed is the split of the stream it stands for. */
  lemma {:induction false} FedIsSplit(st: State, text: string)
    ensures Outputs(st, text) + Flushed(After(st, text)) == Split(Pending(st) + text)
    decreases |text|
  {
    if text == "" {
      assert Pending(st) + text == Pending(st);
      if st.cr {
        assert SkipReturns([CR]) == "";
        SplitAt(st.cur, [CR]);
        SplitPlain("");
      } else {
        assert Pending(st) == st.cur;
        SplitPlain(st.cur);
      }
    } else {
      StepSplits(st, text[0], text[1..]);
      hide Split, Emits, Next;
      assert Pending(st) + text == Pending(st) + [text[0]] + text[1..];
      FedIsSplit(Next(st, text[0]), text[1..]);
    }
  }

  // ----- Chunks -----

  /** The state after feeding every chunk in turn. */
  function FedState(st: State, chunks: seq<string>): State
    decreases |chunks|
  {
    if chunks == [] then st else After(FedState(st, chunks[..|chunks| - 1]), chunks[|chunks| - 1])
  }

  function Fed(st: State, chunks: seq<string>): seq<Output>
    decreases |chunks|
  {
    if chunks == [] then [] else
      var n := |chunks| - 1;
      Fed(st, chunks[..n]) + Outputs(FedState(st, chunks[..n]), chunks[n])
  }

  /** The outputs of feeding every chunk in turn, then flushing. */
  function Session(st: State, chunks: seq<string>): seq<Output> {
    Fed(st, chunks) + Flushed(FedState(st, chunks))
  }

  lemma {:induction false} FeedTwice(st: State, a: string, b: string)
    ensures Outputs(st, a + b) == Outputs(st, a) + Outputs(After(st, a), b)
    ensures After(st, a + b) == After(After(st, a), b)
    decreases |a|
  {
    if a == "" {
      assert a + b == b;
    } else {
      assert (a + b)[1..] == a[1..] + b;
      FeedTwice(Next(st, a[0]), a[1..], b);
    }
  }

  lemma {:induction false} FedIsOneFeed(st: State, chunks: seq<string>)
    ensures Fed(st, chunks) == Outputs(st, Concat(chunks)) && FedState(st, chunks) == After(st, Concat(chunks))
    decreases |chunks|
  {
    if chunks != [] {
      var n := |chunks| - 1;
      FedIsOneFeed(st, chunks[..n]);
      FeedTwice(st, Concat(chunks[..n]), chunks[n]);
    }
  }

  /** However a stream is cut into reads, the lines are its one-pass split. */
  lemma {:induction false} ChunksDoNotMatter(chunks: seq<string>)
    ensures Session(State("", false), chunks) == Split(Concat(chunks))
  {
    FedIsOneFeed(State("", false), chunks);
    FedIsSplit(State("", false), Concat(chunks));
    assert Pending(State("", false)) + Concat(chunks) == Concat(chunks);
  }

  // ----- What ends a line -----

  function Returns(n: nat): (s: string)
    ensures |s| == n && forall i :: 0 <= i < n ==> s[i] == '\r'
  {
    seq(n, _ => '\r')
  }

  lemma {:induction false} ReturnsSkipped(n: nat, rest: string)
    requires rest == "" || rest[0] != '\r'
    ensures SkipReturns(Returns(n) + rest) == rest
  {
    if n == 0 {
      assert Returns(0) + rest == rest;
    } else {
      assert (Returns(n) + rest)[1..] == Returns(n - 1) + rest;
      ReturnsSkipped(n - 1, rest);
    }
  }

  /** Text and a line feed are one line, however many carriage returns are between them. */
  lemma {:induction false} FeedEndsLine(text: string, n: nat, rest: string)
    requires forall i :: 0 <= i < |text| ==> text[i] != '\r' && text[i] != '\n'
    ensures Split(text + Returns(n) + ['\n'] + rest) == [Line(text)] + Split(rest)
  {
    var tail := Returns(n) + (['\n'] + rest);
    assert text + Returns(n) + ['\n'] + rest == text + tail;
    ReturnsSkipped(n, ['\n'] + rest);
    assert (['\n'] + rest)[1..] == rest;
    hide Split, SkipReturns;
    SplitAt(text, tail);
  }

  /** Text and carriage returns that anything else follows were drawn and overwritten. */
  lemma {:induction false} CharRedraws(text: string, n: Pos, rest: string)
    requires forall i :: 0 <= i < |text| ==> text[i] != '\r' && text[i] != '\n'
    requires rest == "" || (rest[0] != '\r' && rest[0] != '\n')
    ensures Split(text + Returns(n) + rest) == [Partial(text)] + Split(rest)
  {
    var tail := Returns(n) + rest;
    assert text + Returns(n) + rest == text + tail;
    ReturnsSkipped(n, rest);
    hide Split, SkipReturns;
    SplitAt(text, tail);
  }

  /** Text that the stream ends with is a line. */
  lemma {:induction false} EndIsLine(text: string)
    requires forall i :: 0 <= i < |text| ==> text[i] != '\r' && text[i] != '\n'
    ensures Split(text) == if text == "" then [] else [Line(text)]
  {
    SplitPlain(text);
  }

  // ----- Conservation -----

  function Texts(out: seq<Output>): string {
    if out == [] then "" else out[0].text + Texts(out[1..])
  }

  function Visible(s: string): string {
    if s == "" then "" else (if s[0] == CR || s[0] == LF then "" else [s[0]]) + Visible(s[1..])
  }

  function LineFeeds(s: string): nat {
    if s == "" then 0 else (if s[0] == LF then 1 else 0) + LineFeeds(s[1..])
  }

  function Lines(out: seq<Output>): nat {
    if out == [] then 0 else (if out[0].Line? then 1 else 0) + Lines(out[1..])
  }

  lemma {:induction false} PlainHead(text: PlainText, rest: string)
    ensures Visible(text + rest) == text + Visible(rest) && LineFeeds(text + rest) == LineFeeds(rest)
  {
    if text == "" {
      assert text + rest == rest;
    } else {
      assert (text + rest)[1..] == text[1..] + rest;
      PlainHead(text[1..], rest);
    }
  }

  lemma {:induction false} ReturnsShowNothing(s: string)
    ensures Visible(SkipReturns(s)) == Visible(s) && LineFeeds(SkipReturns(s)) == LineFeeds(s)
  {
    if s != "" && s[0] == CR { ReturnsShowNothing(s[1..]); }
  }

  /** Nothing but carriage returns and line feeds is lost or added. */
  lemma {:induction false} TextIsKept(s: string)
    ensures Texts(Split(s)) == Visible(s)
    decreases |s|
  {
    var n := TextEnd(s);
    var text, rest := s[..n], SkipReturns(s[n..]);
    SplitUnfolds(s);
    assert s == text + s[n..];
    PlainHead(text, s[n..]);
    ReturnsShowNothing(s[n..]);
    assert s[n..] == "" ==> Visible(s[n..]) == "";
    assert rest != "" && rest[0] == LF ==> Visible(rest) == Visible(rest[1..]);
    hide Split, TextEnd, SkipReturns, Plain, Visible, Texts;
    if n == |s| {
      OutputsCons(Line(s), []);
    } else if rest != "" && rest[0] == LF {
      OutputsCons(Line(text), Split(rest[1..]));
      TextIsKept(rest[1..]);
    } else {
      OutputsCons(Partial(text), Split(rest));
      TextIsKept(rest);
    }
  }

  /** The stream ends in text. */
  predicate EndsOpen(s: string) {
    s != "" && s[|s| - 1] != LF && s[|s| - 1] != CR
  }

  /** There is one line for each line feed, and one more for text at the end of the stream. */
  lemma {:induction false} LinesAreFeeds(s: string)
    ensures Lines(Split(s)) == LineFeeds(s) + if EndsOpen(s) then 1 else 0
    decreases |s|
  {
    var n := TextEnd(s);
    var rest := SkipReturns(s[n..]);
    SplitUnfolds(s);
    FeedsAfterText(s);
    OutputsCons(Line(s), []);
    hide *;
    if n < |s| {
      if rest != "" && rest[0] == LF {
        OutputsCons(Line(s[..n]), Split(rest[1..]));
        LinesAreFeeds(rest[1..]);
      } else {
        OutputsCons(Partial(s[..n]), Split(rest));
        LinesAreFeeds(rest);
      }
    }
  }

  /** What is left after the text and its end has the stream's other line feeds, and ends like it. */
  lemma {:induction false} FeedsAfterText(s: string)
    ensures var n := TextEnd(s);
            var rest := SkipReturns(s[n..]);
            if n == |s| then LineFeeds(s) == 0 && (EndsOpen(s) <==> n != 0) && (n != 0 ==> [Line(s)] + [] == [Line(s)])
            else if rest != "" && rest[0] == LF
            then LineFeeds(s) == 1 + LineFeeds(rest[1..]) && (EndsOpen(s) <==> EndsOpen(rest[1..]))
            else LineFeeds(s) == LineFeeds(rest) && (EndsOpen(s) <==> EndsOpen(rest))
  {
    var n := TextEnd(s);
    assert s == s[..n] + s[n..];
    PlainHead(s[..n], s[n..]);
    ReturnsShowNothing(s[n..]);
    SameEnd(s[n..]);
    hide TextEnd, SkipReturns, Visible;
  }

  /** No output holds a carriage return or a line feed. */
  lemma {:induction false} TextsArePlain(s: string, i: nat)
    requires i < |Split(s)|
    ensures Plain(Split(s)[i].text)
    decreases |s|
  {
    var n := TextEnd(s);
    var rest := SkipReturns(s[n..]);
    SplitUnfolds(s);
    assert s[..|s|] == s;
    hide Split;
    if i > 0 {
      if rest != "" && rest[0] == LF {
        TextsArePlain(rest[1..], i - 1);
      } else {
        TextsArePlain(rest, i - 1);
      }
    }
  }

  lemma {:induction false} SplitUnfolds(s: string)
    ensures var n := TextEnd(s); var rest := SkipReturns(s[n..]);
            Split(s) == if n == |s| then (if n == 0 then [] else [Line(s)])
                        else if rest != "" && rest[0] == LF then [Line(s[..n])] + Split(rest[1..])
                        else [Partial(s[..n])] + Split(rest)
  {
  }

  lemma {:induction false} OutputsCons(x: Output, out: seq<Output>)
    ensures Texts([x] + out) == x.text + Texts(out)
    ensures Lines([x] + out) == (if x.Line? then 1 else 0) + Lines(out)
    ensures Texts([]) == "" && Lines([]) == 0
  {
    assert ([x] + out)[1..] == out;
  }

  lemma {:induction false} SameEnd(s: string)
    ensures EndsOpen(SkipReturns(s)) == EndsOpen(s)
  {
    if s != "" && s[0] == CR {
      assert EndsOpen(s) == EndsOpen(s[1..]);
      SameEnd(s[1..]);
    }
  }
}
