/**
 The stderr filter (internal/debug/runner.go): docker compose's logfmt warnings
 become plain "warning: ..." lines, everything else passes through, however
 the bytes arrive. Recognising a warning and unquoting it are parameters.
 */
module Rewriter {
  import opened Wrappers

  /** The quoted message of a line that is a logfmt warning, and strconv.Unquote. */
  datatype Lib = Lib(warning: string -> Option<string>, unquote: string -> Option<string>)

  function RewriteWarning(lib: Lib, line: string): string {
    match lib.warning(line)
    case None => line
    case Some(quoted) =>
      match lib.unquote("\"" + quoted + "\"")
      case None => line
      case Some(msg) => "warning: " + msg + "\n"
  }

  // ---------------------------------------------------------------- lines

  /** bytes.IndexByte of a newline, -1 when there is none. */
  function NewlineAt(s: string): (i: int)
    ensures -1 <= i < |s|
    ensures i >= 0 ==> s[i] == '\n' && '\n' !in s[..i]
    ensures i < 0 ==> '\n' !in s
  {
    if s == "" then -1
    else if s[0] == '\n' then 0
    else
      var i := NewlineAt(s[1..]);
      if i < 0 then -1
      else
        assert s[..i + 1] == [s[0]] + s[1..][..i];
        i + 1
  }

  /** The complete lines, each with its newline. */
  function Lines(s: string): seq<string>
    decreases |s|
  {
    var i := NewlineAt(s);
    if i < 0 then [] else [s[..i + 1]] + Lines(s[i + 1..])
  }

  /** What follows the last newline. */
  function Rest(s: string): string
    decreases |s|
  {
    var i := NewlineAt(s);
    if i < 0 then s else Rest(s[i + 1..])
  }

  function Rewritten(lib: Lib, lines: seq<string>): string {
    if lines == [] then ""
    else Rewritten(lib, lines[..|lines| - 1]) + RewriteWarning(lib, lines[|lines| - 1])
  }

  /** The line-by-line rewrite of a whole input, its unfinished last line included. */
  function RewriteAll(lib: Lib, input: string): string {
    Rewritten(lib, Lines(input)) + Tail(lib, input)
  }

  lemma {:induction false} NewlineInFront(a: string, b: string)
    requires NewlineAt(a) >= 0
    ensures NewlineAt(a + b) == NewlineAt(a)
  {
    if a[0] != '\n' {
      assert (a + b)[1..] == a[1..] + b;
      NewlineInFront(a[1..], b);
    }
  }

  /** More input extends the unfinished line and leaves finished ones alone. */
  lemma {:induction false} LinesAppend(a: string, b: string)
    ensures Lines(a + b) == Lines(a) + Lines(Rest(a) + b)
    ensures Rest(a + b) == Rest(Rest(a) + b)
    decreases |a|
  {
    var i := NewlineAt(a);
    if i >= 0 {
      NewlineInFront(a, b);
      assert (a + b)[..i + 1] == a[..i + 1];
      assert (a + b)[i + 1..] == a[i + 1..] + b;
      LinesAppend(a[i + 1..], b);
    }
  }

  lemma {:induction false} FlattenMore(line: string, lines: seq<string>)
    ensures Flatten([line] + lines) == line + Flatten(lines)
  {
    if lines != [] {
      FlattenMore(line, lines[..|lines| - 1]);
      assert ([line] + lines)[..|lines|] == [line] + lines[..|lines| - 1];
    }
  }

  /** Lines and rest are the input, cut at its newlines. */
  lemma {:induction false} LinesAccount(s: string)
    ensures Flatten(Lines(s)) + Rest(s) == s
    decreases |s|
  {
    if NewlineAt(s) >= 0 {
      var line, later := FirstLine(s);
      LinesAccount(later);
      FlattenMore(line, Lines(later));
      Regroup(line, Flatten(Lines(later)), Rest(later));
    }
  }

  lemma FirstLine(s: string) returns (line: string, later: string)
    requires NewlineAt(s) >= 0
    ensures s == line + later && |later| < |s|
    ensures Lines(s) == [line] + Lines(later) && Rest(s) == Rest(later)
  {
    line, later := s[..NewlineAt(s) + 1], s[NewlineAt(s) + 1..];
  }

  /** A line has one newline, at its end; the rest has none. */
  lemma {:induction false} LinesEndOnce(s: string)
    ensures '\n' !in Rest(s)
    ensures forall line | line in Lines(s) :: line != "" && line[|line| - 1] == '\n' && '\n' !in line[..|line| - 1]
    decreases |s|
  {
    var i := NewlineAt(s);
    if i >= 0 {
      LinesEndOnce(s[i + 1..]);
      assert s[..i + 1][..i] == s[..i];
    }
  }

  lemma {:induction false} PlainLines(lib: Lib, lines: seq<string>)
    requires forall line | line in lines :: lib.warning(line).None?
    ensures Rewritten(lib, lines) == Flatten(lines)
  {
    if lines != [] {
      PlainLines(lib, lines[..|lines| - 1]);
    }
  }

  /** Input with no warning line comes out byte for byte. */
  lemma PlainInputPasses(lib: Lib, input: string)
    requires forall line | line in Lines(input) :: lib.warning(line).None?
    requires lib.warning(Rest(input)).None?
    ensures RewriteAll(lib, input) == input
  {
    PlainLines(lib, Lines(input));
    LinesAccount(input);
  }

  lemma NextLine(lib: Lib, done: seq<string>, buf: string)
    requires NewlineAt(buf) >= 0
    ensures var i := NewlineAt(buf);
            && done + Lines(buf) == done + [buf[..i + 1]] + Lines(buf[i + 1..])
            && Rest(buf) == Rest(buf[i + 1..])
            && Rewritten(lib, done + [buf[..i + 1]]) == Rewritten(lib, done) + RewriteWarning(lib, buf[..i + 1])
  {
    var line, later := buf[..NewlineAt(buf) + 1], Lines(buf[NewlineAt(buf) + 1..]);
    RewrittenMore(lib, done, line);
    Regroup(done, [line], later);
  }

  lemma RewrittenMore(lib: Lib, done: seq<string>, line: string)
    ensures Rewritten(lib, done + [line]) == Rewritten(lib, done) + RewriteWarning(lib, line)
  {
    assert (done + [line])[..|done|] == done;
  }

  /** A warning in the middle of other output: its line, and no other byte, becomes the plain one. */
  lemma WarningIsReplaced(lib: Lib, before: string, line: string, after: string, quoted: string, msg: string)
    requires Rest(before) == "" && Lines(line) == [line] && Rest(line) == ""
    requires forall l | l in Lines(before) :: lib.warning(l).None?
    requires forall l | l in Lines(after) :: lib.warning(l).None?
    requires lib.warning(Rest(after)).None?
    requires lib.warning(line) == Some(quoted) && lib.unquote("\"" + quoted + "\"") == Some(msg)
    ensures RewriteAll(lib, before + line + after) == before + ("warning: " + msg + "\n") + after
  {
    CutAtLine(before, line, after);
    PlainLines(lib, Lines(before));
    LinesAccount(before);
    assert Flatten(Lines(before)) + "" == Flatten(Lines(before));
    assert Rewritten(lib, Lines(before)) == before;
    PlainInputPasses(lib, after);
    RewrittenMore(lib, Lines(before), line);
    RewrittenConcat(lib, Lines(before) + [line], Lines(after));
    var front := before + ("warning: " + msg + "\n");
    assert Rewritten(lib, Lines(before) + [line]) == front;
    Regroup(front, Rewritten(lib, Lines(after)), Tail(lib, after));
  }

  /** What the unfinished last line comes out as. */
  function Tail(lib: Lib, input: string): string {
    if Rest(input) == "" then "" else RewriteWarning(lib, Rest(input))
  }

  lemma CutAtLine(before: string, line: string, after: string)
    requires Rest(before) == "" && Lines(line) == [line] && Rest(line) == ""
    ensures Lines(before + line + after) == Lines(before) + [line] + Lines(after)
    ensures Rest(before + line + after) == Rest(after)
  {
    LinesAppend(before, line);
    LinesAppend(before + line, after);
    assert "" + line == line && "" + after == after;
  }

  /** One that cannot be unquoted passes as it is. */
  lemma UnreadableWarningPasses(lib: Lib, line: string, quoted: string)
    requires Lines(line) == [line] && Rest(line) == ""
    requires lib.warning(line) == Some(quoted) && lib.unquote("\"" + quoted + "\"") == None
    ensures RewriteAll(lib, line) == line
  {
    RewrittenMore(lib, [], line);
    assert [] + [line] == [line];
  }

  lemma {:induction false} RewrittenConcat(lib: Lib, a: seq<string>, b: seq<string>)
    ensures Rewritten(lib, a + b) == Rewritten(lib, a) + Rewritten(lib, b)
  {
    if b == [] {
      assert a + b == a;
    } else {
      var most, x := b[..|b| - 1], b[|b| - 1];
      RewrittenConcat(lib, a, most);
      assert b == most + [x];
      Regroup(a, most, [x]);
      RewrittenMore(lib, a + most, x);
      RewrittenMore(lib, most, x);
      Regroup(Rewritten(lib, a), Rewritten(lib, most), RewriteWarning(lib, x));
    }
  }

  // ---------------------------------------------------------------- the filter

  class StderrLines {
    const lib: Lib
    var buf: string
    var out: string              // what the underlying writer took
    var failed: bool             // it refused a line
    ghost var got: string

    constructor (lib: Lib)
      ensures this.lib == lib && got == "" && out == "" && !failed && Valid()
    {
      this.lib := lib;
      buf, out, failed, got := "", "", false, "";
    }

    /** Output and buffer account for all input: finished lines are out, rewritten, the unfinished one is kept. */
    ghost predicate Valid()
      reads this
    {
      !failed ==> out == Rewritten(lib, Lines(got)) && buf == Rest(got)
    }

    method Forward(line: string) returns (ok: bool)
      modifies this`out, this`failed
      ensures failed == (old(failed) || !ok)
      ensures ok ==> out == old(out) + line
    {
      ok := *;
      if ok {
        out := out + line;
      } else {
        failed := true;
      }
    }

    method Write(p: string) returns (n: nat, ok: bool)
      requires Valid()
      modifies this
      ensures Valid() && got == old(got) + p && n == |p|
      ensures failed == (old(failed) || !ok)
    {
      LinesAppend(got, p);
      ghost var was := failed;
      ghost var done := Lines(got);
      got := got + p;
      buf := buf + p;
      while true
        invariant failed == was && got == old(got) + p
        invariant !failed ==>
          && Lines(got) == done + Lines(buf) && Rest(got) == Rest(buf)
          && out == Rewritten(lib, done)
        decreases |buf|
      {
        var i := NewlineAt(buf);
        if i < 0 {
          assert done + [] == done;
          return |p|, true;
        }
        var line := RewriteWarning(lib, buf[..i + 1]);
        NextLine(lib, done, buf);
        done := done + [buf[..i + 1]];
        buf := buf[i + 1..];
        ok := Forward(line);
        if !ok {
          return |p|, false;
        }
      }
    }

    /** After the process is done: everything received has come out, rewritten line by line. */
    method Flush()
      requires Valid()
      modifies this
      ensures got == old(got)
      ensures !failed ==> out == RewriteAll(lib, got) && buf == ""
      ensures old(failed) ==> failed
    {
      if |buf| == 0 {
        return;
      }
      var _ := Forward(RewriteWarning(lib, buf));
      buf := "";
    }
  }

  /** One command's stderr: copied to the filter in whatever pieces it arrives, flushed once the process is done. */
  method CopyStderr(lib: Lib, chunks: seq<string>) returns (f: StderrLines)
    ensures fresh(f) && (!f.failed ==> f.out == RewriteAll(lib, Flatten(chunks)))
  {
    f := new StderrLines(lib);
    for i := 0 to |chunks|
      invariant fresh(f) && f.Valid() && f.lib == lib && !f.failed && f.got == Flatten(chunks[..i])
    {
      assert chunks[..i + 1][..i] == chunks[..i];
      var _, ok := f.Write(chunks[i]);
      if !ok {
        f.Flush();
        return;
      }
    }
    assert chunks[..|chunks|] == chunks;
    f.Flush();
  }
}
