/** Fragmentation is invisible. */
module DisplayFragments {
  // A stream fed in any fragments takes the parser through the same tokens to the same state. Nothing is lost on the
  // way and what stays pending is bounded.

  import opened Bytes
  import opened DisplaySpec

  lemma Ssd1306ReadingExtends(s: seq<byte>, more: seq<byte>)
    requires !ReadSsd1306(s).NeedMore?
    ensures ReadSsd1306(s + more) == ReadSsd1306(s)
  {
    PrefixExtends(SSD1306_INIT, s, more);
    PrefixExtends(SSD1306_WINDOW, s, more);
  }

  lemma Sh1106ReadingExtends(s: seq<byte>, lastPage: Option<nat>, more: seq<byte>)
    requires !ReadSh1106(s, lastPage).NeedMore?
    ensures ReadSh1106(s + more, lastPage) == ReadSh1106(s, lastPage)
  {
    PrefixExtends(SH1106_INIT, s, more);
    PrefixExtends(SH1106_DISPLAY_ON, s, more);
    PrefixExtends([0x00], s, more);
    if |s| >= 2 {
      assert (s + more)[0] == s[0] && (s + more)[1] == s[1];
      assert SH1106_INIT[1] == 0xae && SH1106_DISPLAY_ON[1] == 0xaf;
    }
  }

  lemma ScanExtends(p: Parser, more: seq<byte>)
    requires p.Valid() && p.state.Scan? && Step(p).Moved?
    ensures Step(p.Feed(more)) == Moved(Step(p).next.Feed(more), Step(p).token)
  {
    hide ReadSsd1306, ReadSh1106;
    if p.controller.Ssd1306? {
      Ssd1306ReadingExtends(p.pending, more);
    } else {
      Sh1106ReadingExtends(p.pending, p.sh1106.lastPage, more);
    }
    var n := ReadScan(p).Length();
    TakeFeed(p, n, more);
    assert p.Feed(more).pending[..n] == p.pending[..n];
  }

  lemma DataExtends(p: Parser, more: seq<byte>)
    requires p.Valid() && !p.state.Scan? && Step(p).Moved?
    ensures Step(p.Feed(more)) == Moved(Step(p).next.Feed(more), Step(p).token)
  {
    hide Blit, Finish;
    if p.pending[0] == 0x40 {
      var size := p.Target().width * p.Target().pages + 1;
      TakeFeed(p, size, more);
      assert p.Feed(more).pending[1..size] == p.pending[1..size];
    }
  }

  /** A step that can be taken is the same step, whatever input follows. */
  lemma StepExtends(p: Parser, more: seq<byte>)
    requires p.Valid() && Step(p).Moved?
    ensures Step(p.Feed(more)) == Moved(Step(p).next.Feed(more), Step(p).token)
  {
    if p.state.Scan? {
      ScanExtends(p, more);
    } else {
      DataExtends(p, more);
    }
  }

  lemma TakeFeed(p: Parser, n: nat, more: seq<byte>)
    requires n <= |p.pending|
    ensures p.Feed(more).Take(n) == p.Take(n).Feed(more)
  {
    assert (p.pending + more)[n..] == p.pending[n..] + more;
  }

  /** Input that already decides about a pattern decides the same way when it grows. */
  lemma PrefixExtends(pattern: seq<byte>, s: seq<byte>, more: seq<byte>)
    ensures pattern <= s ==> pattern <= s + more
    ensures !(pattern <= s) && !(s <= pattern) ==> !(pattern <= s + more) && !(s + more <= pattern)
  {
    if !(pattern <= s) && !(s <= pattern) {
      var i :| 0 <= i < |pattern| && i < |s| && pattern[i] != s[i];
      assert (s + more)[i] == s[i];
    }
  }

  lemma DrainUnfolds(p: Parser)
    requires p.Valid()
    ensures Step(p).Stuck? ==> Drain(p) == Run(p, [])
    ensures Step(p).Moved? ==>
              Drain(p) == Run(Drain(Step(p).next).parser, [Step(p).token] + Drain(Step(p).next).tokens)
  {
  }

  lemma {:induction false} DrainExtends(p: Parser, more: seq<byte>)
    requires p.Valid()
    ensures Drain(p.Feed(more)) ==
            Run(Drain(Drain(p).parser.Feed(more)).parser, Drain(p).tokens + Drain(Drain(p).parser.Feed(more)).tokens)
    decreases p.Measure()
  {
    hide Step, Drain;
    DrainUnfolds(p);
    DrainUnfolds(p.Feed(more));
    match Step(p)
    case Stuck =>
      assert [] + Drain(p.Feed(more)).tokens == Drain(p.Feed(more)).tokens;
    case Moved(next, token) =>
      StepExtends(p, more);
      DrainExtends(next, more);
      var first, rest := Drain(next), Drain(Drain(next).parser.Feed(more));
      assert [token] + (first.tokens + rest.tokens) == ([token] + first.tokens) + rest.tokens;
  }

  /** Feeds the fragments one after the other, draining the parser after each of them. */
  function DrainAll(p: Parser, fragments: seq<seq<byte>>): (r: Run)
    requires p.Valid()
    ensures r.parser.Valid()
    decreases |fragments|
  {
    if fragments == [] then
      Run(p, [])
    else
      var first := Drain(p.Feed(fragments[0]));
      var rest := DrainAll(first.parser, fragments[1..]);
      Run(rest.parser, first.tokens + rest.tokens)
  }

  /** Any fragmentation gives the tokens and the state that the whole stream gives at once. */
  lemma {:induction false} FragmentationIndependence(p: Parser, fragments: seq<seq<byte>>)
    requires p.Valid() && Step(p).Stuck?
    ensures DrainAll(p, fragments) == Drain(p.Feed(Flatten(fragments)))
    decreases |fragments|
  {
    hide Step;
    if fragments == [] {
      assert p.Feed([]) == p;
    } else {
      var (head, tail) := (fragments[0], fragments[1..]);
      FragmentationIndependence(Drain(p.Feed(head)).parser, tail);
      DrainExtends(p.Feed(head), Flatten(tail));
      assert p.Feed(head).Feed(Flatten(tail)) == p.Feed(Flatten(fragments)) by {
        assert (p.pending + head) + Flatten(tail) == p.pending + (head + Flatten(tail));
      }
    }
  }

  /** Two ways to cut the same stream cannot be told apart. */
  lemma SameStreamSameRun(p: Parser, left: seq<seq<byte>>, right: seq<seq<byte>>)
    requires p.Valid() && Step(p).Stuck? && Flatten(left) == Flatten(right)
    ensures DrainAll(p, left) == DrainAll(p, right)
  {
    FragmentationIndependence(p, left);
    FragmentationIndependence(p, right);
  }

  /** However long the stream, a drained parser holds back at most one frame payload. */
  lemma DrainedPendingIsBounded(p: Parser)
    requires p.Valid() && Step(p).Stuck?
    ensures |p.pending| <= FRAMEBUFFER_SIZE
  {
    if !p.state.Scan? {
      MulMonotone(p.Target().width, WIDTH, p.Target().pages);
    }
  }

  /** The column and page address of the whole display. */
  const WHOLE_DISPLAY: seq<byte> := [0x00, 0x21, 0x00, 0x7f, 0x22, 0x00, 0x07]

  /** The bound is met: of a full frame that lacks its last byte, all but the address is held back. */
  lemma PendingBoundIsTight(data: seq<byte>)
    requires |data| == FRAMEBUFFER_SIZE - 1
    ensures var r := Drain(Fresh(Ssd1306).Feed(WHOLE_DISPLAY + ([0x40] + data)));
            Step(r.parser).Stuck? && r.parser.pending == [0x40] + data && |r.parser.pending| == FRAMEBUFFER_SIZE
  {
    var payload := [0x40] + data;
    var p := Fresh(Ssd1306).Feed(WHOLE_DISPLAY + payload);
    WholeDisplaySteps(payload);
    hide Step, Drain;
    DrainUnfolds(p);
    DrainUnfolds(Step(p).next);
  }

  /** The address is consumed; then less than the whole payload is waited for. */
  lemma WholeDisplaySteps(payload: seq<byte>)
    requires 0 < |payload| <= FRAMEBUFFER_SIZE && payload[0] == 0x40
    ensures var o := Step(Fresh(Ssd1306).Feed(WHOLE_DISPLAY + payload));
            o.Moved? && o.next.pending == payload && Step(o.next).Stuck?
  {
    WholeDisplayReads(payload);
    hide ReadSsd1306;
    var p := Fresh(Ssd1306).Feed(WHOLE_DISPLAY + payload);
    assert p.pending == WHOLE_DISPLAY + payload && p.pending[7..] == payload;
    assert ReadScan(p) == Window(Rect(0, WIDTH, 0, PAGES));
  }

  lemma WholeDisplayReads(rest: seq<byte>)
    ensures ReadSsd1306(WHOLE_DISPLAY + rest) == Window(Rect(0, WIDTH, 0, PAGES))
  {
    var s := WHOLE_DISPLAY + rest;
    assert s[..2] == SSD1306_WINDOW && s[1] != SSD1306_INIT[1];
  }

  /** The bytes of the consumed tokens, in order. */
  function Unparse(tokens: seq<Token>): seq<byte> {
    if tokens == [] then [] else tokens[0].Bytes() + Unparse(tokens[1..])
  }

  lemma StepIsLossless(p: Parser)
    requires p.Valid() && Step(p).Moved?
    ensures Step(p).token.Bytes() + Step(p).next.pending == p.pending
  {
    hide ReadScan, Blit, Finish;
    if p.state.Scan? {
      SplitAt(p.pending, ReadScan(p).Length());
      if ReadScan(p).Junk? {
        assert [p.pending[0]] == p.pending[..1];
      }
    } else if p.pending[0] == 0x40 {
      var size := |Step(p).token.data| + 1;
      SplitAt(p.pending, size);
      assert [0x40] + p.pending[1..size] == p.pending[..size];
    }
  }

  lemma SplitAt(s: seq<byte>, n: nat)
    requires n <= |s|
    ensures s[..n] + s[n..] == s
  {
  }

  /** No byte is lost, duplicated or reordered: the tokens and the pending bytes spell the input. */
  lemma {:induction false} TokenisationIsLossless(p: Parser)
    requires p.Valid()
    ensures Unparse(Drain(p).tokens) + Drain(p).parser.pending == p.pending
    decreases p.Measure()
  {
    hide Step, Token.Bytes;
    match Step(p)
    case Stuck =>
      assert [] + p.pending == p.pending;
    case Moved(next, token) =>
      StepIsLossless(p);
      TokenisationIsLossless(next);
      var rest := Drain(next);
      assert ([token] + rest.tokens)[1..] == rest.tokens;
      assert token.Bytes() + (Unparse(rest.tokens) + rest.parser.pending)
          == (token.Bytes() + Unparse(rest.tokens)) + rest.parser.pending;
  }
}
