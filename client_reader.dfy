/** The client's reader thread (`handle_server`): received text accumulates
    in a buffer, each complete line is split off in order and classified by
    its prefix, and `ECHO` lines are gathered three at a time into the orbs
    the player votes on. */
module ClientReader {
  import opened Common
  import opened PyText

  /** An orb as far as the game is concerned: its echo text and its number
      (`idx + 1` for the `enumerate` position `idx`), which is drawn on the
      orb and sent back when the orb is clicked. */
  datatype Orb = Orb(text: string, idx: nat)

  /** What the reader thread updates: the pending `ECHO` texts
      (`current_echoes`), the message log, `vote_ready` and the orbs. */
  datatype Screen = Screen(echoes: seq<string>, messages: seq<string>, voteReady: bool, orbs: seq<Orb>)

  /** `[Orb(text, idx) for idx, text in enumerate(texts)]`, where the
      constructor stores `idx + 1`: the orbs are numbered from 1. */
  function Orbs(texts: seq<string>): (r: seq<Orb>)
    ensures |r| == |texts|
    ensures forall i :: 0 <= i < |r| ==> r[i] == Orb(texts[i], i + 1)
  {
    seq(|texts|, i requires 0 <= i < |texts| => Orb(texts[i], i + 1))
  }

  const VotePrompt: string := "Vote for the echo you believe is TRUE."

  function RoleMessage(role: string): string
  {
    "--- Your role is " + role + " ---"
  }

  /** Whether a line is one of the end-of-round texts the client shows. */
  predicate IsResultText(line: string)
  {
    Contains(line, "wins") || Contains(line, "Wisdom") || Contains(line, "corruption")
  }

  /** The body of the inner loop for one line split off the buffer. None is
      an exception: an `ECHO` line without `": "` makes `split(": ", 1)[1]`
      raise, which ends the reader thread. Only an `ECHO` line touches the
      pending echoes and the orbs, and only the vote prompt sets
      `vote_ready`. */
  function LineStep(sc: Screen, raw: string): (r: Option<Screen>)
    ensures r.Some? && (r.value.echoes != sc.echoes || r.value.orbs != sc.orbs) ==> StartsWith(Strip(raw), "ECHO")
    ensures r.Some? && r.value.voteReady != sc.voteReady ==> Contains(Strip(raw), "Choose the echo")
  {
    var line := Strip(raw);
    if line == [] then Some(sc)
    else if StartsWith(line, "ROLE:") then
      RoleSplit(line);
      match SplitOnce(line, ":")
      case None => None
      case Some((_, after)) => Some(sc.(messages := sc.messages + [RoleMessage(Strip(after))]))
    else if StartsWith(line, "NOTE:") then
      Some(sc.(messages := sc.messages + [line]))
    else if StartsWith(line, "SUMMARY:") then
      Some(sc.(messages := sc.messages + [Strip(line[8..])]))
    else if StartsWith(line, "ECHO") then
      match SplitOnce(line, ": ")
      case None => None
      case Some((_, text)) =>
        var echoes := sc.echoes + [text];
        if |echoes| == 3 then Some(sc.(echoes := [], orbs := Orbs(echoes)))
        else Some(sc.(echoes := echoes))
    else if Contains(line, "Choose the echo") then
      Some(sc.(voteReady := true, messages := sc.messages + [VotePrompt]))
    else if IsResultText(line) then
      Some(sc.(messages := sc.messages + [line]))
    else Some(sc)
  }

  /** What one line can change: only an `ECHO` line without `": "` raises;
      otherwise at most one message is appended, `vote_ready` is never
      reset, fewer than three echoes stay pending, and the orbs change only
      when a third echo arrives, and then become the pending echoes in
      order. */
  lemma LineStepKeeps(sc: Screen, raw: string)
    ensures LineStep(sc, raw).None? <==> StartsWith(Strip(raw), "ECHO") && !Contains(Strip(raw), ": ")
    ensures var r := LineStep(sc, raw);
            r.Some? ==>
              (|sc.echoes| < 3 ==> |r.value.echoes| < 3) &&
              sc.messages <= r.value.messages && |r.value.messages| <= |sc.messages| + 1 &&
              (sc.voteReady ==> r.value.voteReady) &&
              (r.value.orbs != sc.orbs ==>
                 |sc.echoes| == 2 && r.value.echoes == [] && |r.value.orbs| == 3 &&
                 r.value.orbs[0] == Orb(sc.echoes[0], 1) && r.value.orbs[1] == Orb(sc.echoes[1], 2) &&
                 r.value.orbs[2].idx == 3)
  {
    var line := Strip(raw);
    if StartsWith(line, "ECHO") {
      EchoIsNotOther(line);
    } else if line != [] && StartsWith(line, "ROLE:") {
      RoleSplit(line);
    }
  }

  /** A `ROLE:` line always has a `:`, the one right after the tag, so
      `line.split(":", 1)[1]` is the text after the tag. */
  lemma RoleSplit(line: string)
    requires StartsWith(line, "ROLE:")
    ensures SplitOnce(line, ":") == Some((line[..4], line[5..]))
  {
    assert line[3] == 'E' && line[4] == ':' by {
      assert line[..5] == "ROLE:";
      assert line[..5][3] == line[3] && line[..5][4] == line[4];
    }
    assert Find(line[4..], ":") == Some(0) by {
      assert line[4..][..1] == [line[4]];
    }
    NoColonAt(line, 3, 'E');
    NoColonAt(line, 2, 'L');
    NoColonAt(line, 1, 'O');
    NoColonAt(line, 0, 'R');
  }

  /** One step of `Find` back over a character that is not `:`. */
  lemma NoColonAt(line: string, j: nat, ch: char)
    requires StartsWith(line, "ROLE:") && j < 4 && ch == "ROLE"[j]
    requires Find(line[j + 1..], ":") == Some(3 - j)
    ensures Find(line[j..], ":") == Some(4 - j)
  {
    assert line[j] == ch by {
      assert line[..5] == "ROLE:";
      assert line[..5][j] == line[j];
    }
    assert line[j..][..1] == [line[j]];
    assert line[j..][1..] == line[j + 1..];
  }

  /** The message a `ROLE:` line adds names the role given after the tag. */
  lemma RoleLine(sc: Screen, raw: string)
    requires StartsWith(Strip(raw), "ROLE:")
    ensures LineStep(sc, raw) == Some(sc.(messages := sc.messages + [RoleMessage(Strip(Strip(raw)[5..]))]))
  {
    RoleSplit(Strip(raw));
  }

  /** Three `ECHO` lines received with no echo pending become the three orbs,
      numbered 1, 2, 3 in the order received, and nothing is left pending. */
  lemma EchoTriple(sc: Screen, a: string, b: string, c: string, ta: string, tb: string, tc: string)
    requires sc.echoes == []
    requires StartsWith(Strip(a), "ECHO") && SplitOnce(Strip(a), ": ").Some? && SplitOnce(Strip(a), ": ").value.1 == ta
    requires StartsWith(Strip(b), "ECHO") && SplitOnce(Strip(b), ": ").Some? && SplitOnce(Strip(b), ": ").value.1 == tb
    requires StartsWith(Strip(c), "ECHO") && SplitOnce(Strip(c), ": ").Some? && SplitOnce(Strip(c), ": ").value.1 == tc
    ensures var s1 := LineStep(sc, a);
            s1.Some? && s1.value.echoes == [ta] &&
            var s2 := LineStep(s1.value, b);
            s2.Some? && s2.value.echoes == [ta, tb] &&
            var s3 := LineStep(s2.value, c);
            s3.Some? && s3.value.echoes == [] &&
            s3.value.orbs == [Orb(ta, 1), Orb(tb, 2), Orb(tc, 3)]
  {
    EchoStep(sc, a, ta);
    var s1 := LineStep(sc, a).value;
    EchoStep(s1, b, tb);
    var s2 := LineStep(s1, b).value;
    EchoStep(s2, c, tc);
    assert s2.echoes + [tc] == [ta, tb, tc];
  }

  /** An `ECHO` line with its text `t` after `": "` queues `t`; the third
      queued text turns the pending echoes into the orbs, in order, and
      empties the queue. Nothing else on the screen changes. */
  lemma EchoStep(sc: Screen, raw: string, t: string)
    requires StartsWith(Strip(raw), "ECHO") && SplitOnce(Strip(raw), ": ").Some?
    requires SplitOnce(Strip(raw), ": ").value.1 == t
    ensures LineStep(sc, raw).Some?
    ensures var r := LineStep(sc, raw).value;
            r.messages == sc.messages && r.voteReady == sc.voteReady &&
            if |sc.echoes| == 2 then r.echoes == [] && r.orbs == Orbs(sc.echoes + [t])
            else r.echoes == sc.echoes + [t] && r.orbs == sc.orbs
  {
    EchoIsNotOther(Strip(raw));
  }

  /** An `ECHO` line is not caught by an earlier branch. */
  lemma EchoIsNotOther(line: string)
    requires StartsWith(line, "ECHO")
    ensures line != [] && !StartsWith(line, "ROLE:") && !StartsWith(line, "NOTE:") && !StartsWith(line, "SUMMARY:")
  {
    assert line[0] == 'E';
  }

  /** `"\n".join(lines)` with a newline after every line. */
  function Joined(lines: seq<string>): string
  {
    if lines == [] then [] else lines[0] + "\n" + Joined(lines[1..])
  }

  /** The inner loop splits off a line exactly when the buffer holds a
      newline (`while "\n" in buffer`). */
  lemma FrameEmpty(b: string)
    ensures Frame(b).0 == [] <==> !Contains(b, "\n")
  {
  }

  /** The lines the inner loop splits off `b`, in order, and the remainder
      it leaves in the buffer. */
  function Frame(b: string): (r: (seq<string>, string))
    decreases |b|
  {
    match SplitOnce(b, "\n")
    case None => ([], b)
    case Some((line, after)) =>
      assert |line + "\n" + after| == |b|;
      var t := Frame(after);
      ([line] + t.0, t.1)
  }

  /** Framing loses nothing: the lines, each followed by its newline, and
      then the remainder spell the buffer. */
  lemma {:induction false} FrameJoin(b: string)
    ensures Joined(Frame(b).0) + Frame(b).1 == b
    decreases |b|
  {
    match SplitOnce(b, "\n")
    case None =>
    case Some((line, after)) =>
      assert |line + "\n" + after| == |b|;
      FrameJoin(after);
      var t := Frame(after);
      assert Joined([line] + t.0) == line + "\n" + Joined(t.0) by {
        assert ([line] + t.0)[1..] == t.0;
      }
      AppendAssoc3(line + "\n", Joined(t.0), t.1);
  }

  /** After framing, the remainder holds no newline. */
  lemma {:induction false} FrameRest(b: string)
    ensures !Contains(Frame(b).1, "\n")
    decreases |b|
  {
    match SplitOnce(b, "\n")
    case None =>
    case Some((line, after)) =>
      assert |line + "\n" + after| == |b|;
      FrameRest(after);
  }

  /** No framed line holds a newline. */
  lemma {:induction false} FrameLines(b: string)
    ensures forall i :: 0 <= i < |Frame(b).0| ==> !Contains(Frame(b).0[i], "\n")
    decreases |b|
  {
    match SplitOnce(b, "\n")
    case None =>
    case Some((line, after)) =>
      assert |line + "\n" + after| == |b|;
      FrameLines(after);
      SplitOnceFirst(b, "\n");
      assert line + "\n"[..0] == line;
  }

  /** Feeding `c` after `b` frames the lines of `b` first and then the lines
      of what `b` left over followed by `c`. */
  lemma {:induction false} FrameAppend(b: string, c: string)
    ensures Frame(b + c).0 == Frame(b).0 + Frame(Frame(b).1 + c).0
    decreases |b|
  {
    match SplitOnce(b, "\n")
    case None =>
    case Some((line, after)) =>
      assert |line + "\n" + after| == |b|;
      FrameAppendStep(b, c, line, after);
      FrameAppend(after, c);
      AppendAssoc3([line], Frame(after).0, Frame(Frame(after).1 + c).0);
  }

  /** ... and what is left over in the buffer is what is left over from the
      remainder of `b` followed by `c`. */
  lemma {:induction false} FrameAppendRest(b: string, c: string)
    ensures Frame(b + c).1 == Frame(Frame(b).1 + c).1
    decreases |b|
  {
    match SplitOnce(b, "\n")
    case None =>
    case Some((line, after)) =>
      assert |line + "\n" + after| == |b|;
      FrameAppendStep(b, c, line, after);
      FrameAppendRest(after, c);
  }

  /** When `b` holds a line, framing `b + c` splits off the same line and goes
      on with the rest of `b` followed by `c`. */
  lemma FrameAppendStep(b: string, c: string, line: string, after: string)
    requires SplitOnce(b, "\n") == Some((line, after))
    ensures Frame(b + c).0 == [line] + Frame(after + c).0
    ensures Frame(b + c).1 == Frame(after + c).1
  {
    SplitOnceAppend(b, "\n", c);
  }

  /** The first occurrence in `s` is still the first one once `c` is
      appended. */
  lemma {:induction false} FindAppend(s: string, p: string, c: string)
    requires Find(s, p).Some?
    ensures Find(s + c, p) == Find(s, p)
    decreases |s|
  {
    if StartsWith(s, p) {
      assert (s + c)[..|p|] == s[..|p|];
    } else {
      assert s != [];
      FindAppend(s[1..], p, c);
      assert (s + c)[1..] == s[1..] + c;
      var k := Find(s[1..], p).value;
      assert !StartsWith(s + c, p) by {
        assert |p| <= |s|;
        assert (s + c)[..|p|] == s[..|p|];
      }
    }
  }

  lemma SplitOnceAppend(s: string, sep: string, c: string)
    requires SplitOnce(s, sep).Some?
    ensures SplitOnce(s + c, sep).Some?
    ensures SplitOnce(s + c, sep).value.0 == SplitOnce(s, sep).value.0
    ensures SplitOnce(s + c, sep).value.1 == SplitOnce(s, sep).value.1 + c
  {
    FindAppend(s, sep, c);
    var i := Find(s, sep).value;
    assert (s + c)[..i] == s[..i];
    assert (s + c)[i + |sep|..] == s[i + |sep|..] + c;
  }

  /** The inner loop over the lines `lines`: the screen it leaves and how
      many lines it handled before one raised (all of them when none did). */
  function Steps(sc: Screen, lines: seq<string>): (r: (Screen, nat))
    decreases |lines|
    ensures r.1 <= |lines|
  {
    if lines == [] then (sc, 0)
    else
      match LineStep(sc, lines[0])
      case None => (sc, 0)
      case Some(next) =>
        var t := Steps(next, lines[1..]);
        (t.0, t.1 + 1)
  }

  /** Over any run of lines the messages only grow, `vote_ready` is never
      reset, and fewer than three echoes stay pending. */
  lemma {:induction false} StepsKeeps(sc: Screen, lines: seq<string>)
    decreases |lines|
    ensures |sc.echoes| < 3 ==> |Steps(sc, lines).0.echoes| < 3
    ensures sc.messages <= Steps(sc, lines).0.messages
    ensures sc.voteReady ==> Steps(sc, lines).0.voteReady
  {
    if lines != [] {
      LineStepKeeps(sc, lines[0]);
      match LineStep(sc, lines[0])
      case None =>
      case Some(next) =>
        StepsKeeps(next, lines[1..]);
    }
  }

  /** Handling one more line after lines that all succeeded. */
  lemma {:induction false} StepsSnoc(sc: Screen, lines: seq<string>, line: string)
    requires Steps(sc, lines).1 == |lines|
    decreases |lines|
    ensures LineStep(Steps(sc, lines).0, line).Some? ==>
              Steps(sc, lines + [line]).0 == LineStep(Steps(sc, lines).0, line).value &&
              Steps(sc, lines + [line]).1 == |lines| + 1
    ensures LineStep(Steps(sc, lines).0, line).None? ==>
              Steps(sc, lines + [line]).0 == Steps(sc, lines).0 &&
              Steps(sc, lines + [line]).1 == |lines|
  {
    if lines != [] {
      var next := LineStep(sc, lines[0]).value;
      assert (lines + [line])[1..] == lines[1..] + [line];
      StepsSnoc(next, lines[1..], line);
    }
  }

  /** Once a line raises, the lines after it are never handled. */
  lemma {:induction false} StepsStop(sc: Screen, lines: seq<string>, k: nat)
    requires k < |lines| && Steps(sc, lines[..k]).1 == k
    requires LineStep(Steps(sc, lines[..k]).0, lines[k]).None?
    decreases k
    ensures Steps(sc, lines).0 == Steps(sc, lines[..k]).0
    ensures Steps(sc, lines).1 == k
  {
    if k > 0 {
      var next := LineStep(sc, lines[0]).value;
      assert lines[..k][1..] == lines[1..][..k - 1];
      StepsStop(next, lines[1..], k - 1);
    }
  }

  /** Handling `a + b` is handling `a` and then, if no line raised, `b`. */
  lemma {:induction false} StepsAppend(sc: Screen, a: seq<string>, b: seq<string>)
    requires Steps(sc, a).1 == |a|
    decreases |a|
    ensures Steps(sc, a + b).0 == Steps(Steps(sc, a).0, b).0
    ensures Steps(sc, a + b).1 == |a| + Steps(Steps(sc, a).0, b).1
  {
    if a != [] {
      var next := LineStep(sc, a[0]).value;
      assert (a + b)[1..] == a[1..] + b;
      StepsAppend(next, a[1..], b);
    } else {
      assert a + b == b;
    }
  }

  /** Receiving `b` and then `c` reads the same lines, with the same
      remainder, as receiving `b + c` at once: where the network splits
      the text does not matter. */
  lemma ChunkBoundary(sc: Screen, buffer: string, b: string, c: string)
    requires Steps(sc, Frame(buffer + b).0).1 == |Frame(buffer + b).0|
    ensures var first := Frame(buffer + b);
            var second := Frame(first.1 + c);
            var whole := Frame(buffer + b + c);
            whole.1 == second.1 &&
            Steps(sc, whole.0).0 == Steps(Steps(sc, first.0).0, second.0).0 &&
            Steps(sc, whole.0).1 == |first.0| + Steps(Steps(sc, first.0).0, second.0).1
  {
    FrameAppend(buffer + b, c);
    FrameAppendRest(buffer + b, c);
    StepsAppend(sc, Frame(buffer + b).0, Frame(Frame(buffer + b).1 + c).0);
  }

  /** The chunks of a session, joined. */
  function Concat(chunks: seq<string>): string
  {
    if chunks == [] then [] else chunks[0] + Concat(chunks[1..])
  }

  /** The reader thread fed the chunks `chunks` one `recv` at a time,
      starting from screen `sc` and buffer `buffer`: the screen it leaves
      and whether it is still running once the chunks run out. An empty
      chunk (the server closed the connection) or a line that raises ends
      it, so a session still running has received no empty chunk. */
  function Session(sc: Screen, buffer: string, chunks: seq<string>): (r: (Screen, bool))
    ensures r.1 ==> forall i :: 0 <= i < |chunks| ==> chunks[i] != []
    decreases |chunks|
  {
    if chunks == [] then (sc, true)
    else if chunks[0] == [] then (sc, false)
    else
      var f := Frame(buffer + chunks[0]);
      var h := Steps(sc, f.0);
      if h.1 < |f.0| then (h.0, false)
      else Session(h.0, f.1, chunks[1..])
  }

  /** A session that receives its text in several non-empty chunks and keeps
      running shows what one chunk holding all of the text would have
      shown. */
  lemma {:induction false} SessionWhole(sc: Screen, buffer: string, chunks: seq<string>)
    requires !Contains(buffer, "\n")
    requires forall i :: 0 <= i < |chunks| ==> chunks[i] != []
    requires Session(sc, buffer, chunks).1
    decreases |chunks|
    ensures Session(sc, buffer, chunks).0 == Steps(sc, Frame(buffer + Concat(chunks)).0).0
    ensures Steps(sc, Frame(buffer + Concat(chunks)).0).1 == |Frame(buffer + Concat(chunks)).0|
  {
    if chunks == [] {
      assert buffer + [] == buffer;
    } else {
      var c := chunks[0];
      var rest := Concat(chunks[1..]);
      var f := Frame(buffer + c);
      var h := Steps(sc, f.0);
      assert h.1 == |f.0|;
      assert Session(sc, buffer, chunks) == Session(h.0, f.1, chunks[1..]);
      FrameRest(buffer + c);
      SessionWhole(h.0, f.1, chunks[1..]);
      ChunkBoundary(sc, buffer, c, rest);
      FrameAppend(buffer + c, rest);
      assert buffer + Concat(chunks) == buffer + c + rest by {
        AppendAssoc3(buffer, c, rest);
      }
    }
  }

  /** The chunk `recv` returns next heads the chunks still to come. */
  lemma NextChunk(chunks: seq<string>, i: nat)
    requires i < |chunks|
    ensures chunks[i..] != [] && chunks[i..][0] == chunks[i]
    ensures chunks[i..][1..] == chunks[i + 1..]
  {
  }

  /** The line the loop splits off next is the next framed line. */
  lemma NextLine(lines: seq<string>, k: nat, line: string, more: seq<string>)
    requires k <= |lines| && lines[k..] == [line] + more
    ensures k < |lines| && lines[k] == line && more == lines[k + 1..]
    ensures lines[..k] + [line] == lines[..k + 1]
  {
    assert lines[k..][0] == line;
    assert lines[k..][1..] == more;
  }

  class Reader {
    var buffer: string
    var currentEchoes: seq<string>
    var messages: seq<string>
    var voteReady: bool
    var orbs: seq<Orb>

    function Current(): Screen
      reads this
    {
      Screen(currentEchoes, messages, voteReady, orbs)
    }

    /** Between chunks the buffer holds no complete line, and fewer than
        three echoes are pending. */
    ghost predicate Valid()
      reads this
    {
      !Contains(buffer, "\n") && |currentEchoes| < 3
    }

    /** The client's state before the reader thread starts. */
    constructor ()
      ensures Valid()
      ensures buffer == [] && Current() == Screen([], [], false, [])
    {
      buffer, currentEchoes, messages, voteReady, orbs := [], [], [], false, [];
    }

    /** The classification of one line split off the buffer; `ok` is false
        when the line raised. */
    method HandleLine(raw: string) returns (ok: bool)
      modifies this
      ensures ok == LineStep(old(Current()), raw).Some?
      ensures ok ==> Current() == LineStep(old(Current()), raw).value
      ensures !ok ==> Current() == old(Current())
      ensures buffer == old(buffer)
    {
      var line := Strip(raw);
      ok := true;
      if line == [] {
      } else if StartsWith(line, "ROLE:") {
        RoleSplit(line);
        var role := Strip(SplitOnce(line, ":").value.1);
        messages := messages + [RoleMessage(role)];
      } else if StartsWith(line, "NOTE:") {
        messages := messages + [line];
      } else if StartsWith(line, "SUMMARY:") {
        messages := messages + [Strip(line[8..])];
      } else if StartsWith(line, "ECHO") {
        var parts := SplitOnce(line, ": ");
        if parts.None? {
          ok := false;
        } else {
          currentEchoes := currentEchoes + [parts.value.1];
          if |currentEchoes| == 3 {
            orbs := Orbs(currentEchoes);
            currentEchoes := [];
          }
        }
      } else if Contains(line, "Choose the echo") {
        voteReady := true;
        messages := messages + [VotePrompt];
      } else if IsResultText(line) {
        messages := messages + [line];
      }
    }

    /** One pass of `while True` with the chunk `recv` returned: an empty
        chunk ends the thread; otherwise the chunk is appended and every
        complete line is handled in order. `alive` is false when the thread
        ends. */
    method Receive(chunk: string) returns (alive: bool)
      requires Valid()
      modifies this
      ensures chunk == [] ==> !alive && buffer == old(buffer) && Current() == old(Current())
      ensures chunk != [] ==>
                var lines := Frame(old(buffer) + chunk).0;
                var rest := Frame(old(buffer) + chunk).1;
                var handled := Steps(old(Current()), lines);
                Current() == handled.0 &&
                (alive <==> handled.1 == |lines|) &&
                (alive ==> buffer == rest) &&
                (!alive ==> Frame(buffer).0 == lines[handled.1 + 1..] && Frame(buffer).1 == rest)
      ensures alive ==> Valid()
    {
      if chunk == [] {
        return false;
      }
      buffer := buffer + chunk;
      alive := Drain();
    }

    /** The reader thread's `while True`: each element of `chunks` is what
        one `recv` returns, in order. `alive` is false once the thread has
        ended, and then the later chunks are never read. */
    method Listen(chunks: seq<string>) returns (alive: bool)
      requires Valid()
      modifies this
      ensures Current() == Session(old(Current()), old(buffer), chunks).0
      ensures alive == Session(old(Current()), old(buffer), chunks).1
      ensures alive ==> Valid()
    {
      ghost var start := Current();
      ghost var b0 := buffer;
      alive := true;
      var i := 0;
      while i < |chunks| && alive
        invariant 0 <= i <= |chunks|
        invariant alive ==> Valid()
        invariant alive ==> Session(Current(), buffer, chunks[i..]) == Session(start, b0, chunks)
        invariant !alive ==> Current() == Session(start, b0, chunks).0 && !Session(start, b0, chunks).1
      {
        NextChunk(chunks, i);
        alive := Receive(chunks[i]);
        i := i + 1;
      }
      if alive {
        assert chunks[i..] == [];
      }
    }

    /** `while "\n" in buffer`: split off and handle each complete line in
        order, until none is left or one raises. */
    method Drain() returns (alive: bool)
      requires |currentEchoes| < 3
      modifies this
      ensures var lines := Frame(old(buffer)).0;
              var handled := Steps(old(Current()), lines);
              Current() == handled.0 &&
              (alive <==> handled.1 == |lines|) &&
              (alive ==> buffer == Frame(old(buffer)).1) &&
              (!alive ==> Frame(buffer).0 == lines[handled.1 + 1..] && Frame(buffer).1 == Frame(old(buffer)).1)
      ensures alive ==> Valid()
    {
      ghost var lines := Frame(buffer).0;
      ghost var rest := Frame(buffer).1;
      ghost var start := Current();
      ghost var k := 0;
      while Contains(buffer, "\n")
        invariant k <= |lines|
        invariant Frame(buffer).0 == lines[k..] && Frame(buffer).1 == rest
        invariant Steps(start, lines[..k]).1 == k
        invariant Steps(start, lines[..k]).0 == Current()
        decreases |buffer|
      {
        var parts := SplitOnce(buffer, "\n").value;
        assert |parts.0 + "\n" + parts.1| == |buffer|;
        NextLine(lines, k, parts.0, Frame(parts.1).0);
        buffer := parts.1;
        StepsSnoc(start, lines[..k], parts.0);
        var ok := HandleLine(parts.0);
        if !ok {
          StepsStop(start, lines, k);
          return false;
        }
        k := k + 1;
      }
      assert lines[..k] == lines;
      StepsKeeps(start, lines);
      return true;
    }
  }
}
