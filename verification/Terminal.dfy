/** The scrollback side of the terminal: what a write that scrolls lines off adds to it. */
module Terminal {
  import opened MoshTypes

  const MAX_SCROLLBACK_LINES: nat := 5000

  /** The newest lines, as many as are kept. */
  function Newest<L>(lines: seq<L>): seq<L> {
    if |lines| > MAX_SCROLLBACK_LINES then lines[|lines| - MAX_SCROLLBACK_LINES..] else lines
  }

  lemma NewestOneByOne<L>(lines: seq<L>, line: L)
    ensures Newest(Newest(lines) + [line]) == Newest(lines + [line])
  {
  }

  /** The lines of a write that are kept. */
  function Kept<L>(lines: seq<L>, keep: bool, skip: nat): seq<L> {
    if !keep || skip >= |lines| then [] else lines[skip..]
  }

  lemma KeptNone<L>(lines: seq<L>, keep: bool, skip: nat)
    ensures Kept(lines[..0], keep, skip) == []
  {
  }

  lemma NewestSame<L>(lines: seq<L>)
    requires |lines| <= MAX_SCROLLBACK_LINES
    ensures Newest(lines + []) == lines
  {
    assert lines + [] == lines;
  }

  /** One line more, pushed while so many are still to be skipped. */
  lemma KeptMore<L>(start: seq<L>, pushed: seq<L>, i: nat, keep: bool, skip: nat, left: nat)
    requires i < |pushed| && (keep ==> left == Max(0, skip - i))
    ensures var kept, line := Kept(pushed[..i], keep, skip), Kept([pushed[i]], keep, left);
      && Kept(pushed[..i + 1], keep, skip) == kept + line
      && Newest(Newest(start + kept) + line) == Newest(start + Kept(pushed[..i + 1], keep, skip))
  {
    var kept, line := Kept(pushed[..i], keep, skip), Kept([pushed[i]], keep, left);
    assert pushed[..i + 1] == pushed[..i] + [pushed[i]];
    if keep && skip <= i {
      assert line == [pushed[i]];
      NewestOneByOne(start + kept, pushed[i]);
    } else {
      assert line == [];
      assert Newest(start + kept) + [] == Newest(start + kept);
    }
    hide Newest;
    assert start + (kept + line) == (start + kept) + line;
  }

  class Scrollback<L> {
    var lines: seq<L>
    var scrolledLines: int
    var droppedLines: int
    var keepScrolledLines: bool
    var skipScrolledLines: nat

    /** Lines scrolled less lines dropped are the lines there. */
    ghost predicate Valid()
      reads this
    {
      scrolledLines - droppedLines == |lines| <= MAX_SCROLLBACK_LINES
    }

    constructor ()
      ensures Valid() && lines == [] && droppedLines == 0 && keepScrolledLines && skipScrolledLines == 0
    {
      lines, scrolledLines, droppedLines, keepScrolledLines, skipScrolledLines := [], 0, 0, true, 0;
    }

    method OnPushLine(line: L)
      requires Valid()
      modifies this
      ensures Valid() && keepScrolledLines == old(keepScrolledLines)
      ensures var kept := Kept([line], old(keepScrolledLines), old(skipScrolledLines));
        && lines == Newest(old(lines) + kept) && scrolledLines == old(scrolledLines) + |kept|
      ensures skipScrolledLines ==
        if old(keepScrolledLines) && old(skipScrolledLines) > 0 then old(skipScrolledLines) - 1 else old(skipScrolledLines)
    {
      if !keepScrolledLines {
        return;
      }
      if skipScrolledLines > 0 {
        skipScrolledLines := skipScrolledLines - 1;
        return;
      }
      lines := lines + [line];
      scrolledLines := scrolledLines + 1;
      if |lines| > MAX_SCROLLBACK_LINES {
        lines := lines[1..];
        droppedLines := droppedLines + 1;
      }
    }

    method OnPopLine() returns (line: Option<L>)
      requires Valid()
      modifies this`lines, this`scrolledLines
      ensures Valid()
      ensures old(lines) == [] ==> line == None && lines == []
      ensures old(lines) != [] ==> line.Some? && lines + [line.value] == old(lines)
    {
      if lines == [] {
        return None;
      }
      line := Some(Last(lines));
      lines := lines[..|lines| - 1];
      scrolledLines := scrolledLines - 1;
    }

    method OnClearScrollback()
      requires Valid()
      modifies this`lines, this`droppedLines
      ensures Valid() && lines == [] && scrolledLines == old(scrolledLines)
    {
      droppedLines := droppedLines + |lines|;
      lines := [];
    }

    /** A write during which the screen pushes the given lines, one after the other. */
    method Write(pushed: seq<L>, keep: bool, skip: nat)
      requires Valid()
      modifies this
      ensures Valid() && keepScrolledLines && skipScrolledLines == 0
      ensures lines == Newest(old(lines) + Kept(pushed, keep, skip))
      ensures scrolledLines == old(scrolledLines) + |Kept(pushed, keep, skip)|
    {
      keepScrolledLines, skipScrolledLines := keep, skip;
      hide Newest, Kept;
      KeptNone(pushed, keep, skip);
      NewestSame(lines);
      for i := 0 to |pushed|
        invariant Valid() && keepScrolledLines == keep
        invariant keep ==> skipScrolledLines == Max(0, skip - i)
        invariant lines == Newest(old(lines) + Kept(pushed[..i], keep, skip))
        invariant scrolledLines == old(scrolledLines) + |Kept(pushed[..i], keep, skip)|
      {
        KeptMore(old(lines), pushed, i, keep, skip, skipScrolledLines);
        OnPushLine(pushed[i]);
      }
      assert pushed[..|pushed|] == pushed;
      keepScrolledLines, skipScrolledLines := true, 0;
    }
  }
}
