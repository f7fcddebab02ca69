/** The game loop (`game_loop`): the welcome broadcast, then rounds of role
    assignment, echo drawing, vote collection, tally and resolution, and the
    winner announcement once the last round is over. Every line the server
    sends is recorded in an outbox, in the order it is sent. */
module RoundEngine {
  import opened Common
  import opened PyInt
  import opened OrderedDict
  import opened Game
  import opened AiAgent
  import opened Registry
  import opened Tally

  const MaxRounds: nat := 3

  const WelcomeTexts: seq<string> := [
    "Welcome to Echoes & Lies!\n",
    "--- ROLE EXPLANATIONS ---",
    "Whisperer: Knows which echoes are false and tries to mislead the others.",
    "Explorer: Tries to identify and vote for the true echo among the three.",
    "Two true echoes and one false are shown each round.",
    "Choose carefully! Too many lies and the library is lost...\n"
  ]
  const Prompt := "Choose the echo you believe is TRUE (1/2/3):"
  const ResultsHeader := "--- Round Results ---"
  const LieOutcome := "The chosen echo was a LIE! Library corruption increases."
  const TruthOutcome := "The chosen echo was TRUE. Wisdom preserved."
  const WhispererWins := "Whisperer wins! Lies have corrupted the library."
  const ExplorersWin := "Explorers win! The truth has been preserved."

  /** One line sent to one participant. */
  datatype Line = Line(to: Conn, text: string)

  /** Where a participant's vote comes from. A human's vote is the line
      taken from its vote queue, None when the 30-second wait times out; an
      automated participant's vote comes from the draws `ai_vote` makes. */
  datatype Ballot =
    | Typed(line: Option<string>)
    | Drawn(below: bool, pick: nat)

  /** How one pass through the body of the game loop ends.
      NoParticipants: `random.choice` on an empty client list raised and the
      game thread stopped. Redrawn: the triple did not hold exactly two true
      echoes and the loop went round again. BadChoice: `echoes[chosen - 1]`
      raised and the game thread stopped. Completed: the round was resolved,
      and `lie` says whether the selected echo was false. */
  datatype Outcome =
    | NoParticipants
    | Redrawn
    | BadChoice(chosen: int)
    | Completed(chosen: int, lie: bool)

  /** The draws of one pass through the loop body: the registry as the round
      sees it, the index `random.choice` draws for the Whisperer, the bank
      positions `random.sample` draws, and one ballot per participant. */
  datatype Draws = Draws(view: View, whisperIdx: nat, sample: Sample, ballots: seq<Ballot>)

  /** How a game run ends: the game thread stopped with an exception, the
      draws ran out before the last round, or the winner was announced. */
  datatype Status = Stopped(outcome: Outcome) | Unfinished | Finished(whispererWon: bool)

  /** `random.sample(echoes_bank, 3)` draws three distinct bank positions. */
  predicate SampleOk(sample: seq<nat>)
  {
    |sample| == 3 && (forall i :: 0 <= i < 3 ==> sample[i] < BankSize) &&
    sample[0] != sample[1] && sample[0] != sample[2] && sample[1] != sample[2]
  }

  /** Three distinct bank positions, as `random.sample` draws them. */
  type Sample = s: seq<nat> | SampleOk(s) witness [0, 1, 2]

  /** The echoes at the sampled positions, in sample order. */
  function Draw(sample: Sample): (echoes: seq<Echo>)
    ensures |echoes| == 3
    ensures forall i :: 0 <= i < 3 ==> echoes[i] == BankEcho(sample[i])
  {
    [BankEcho(sample[0]), BankEcho(sample[1]), BankEcho(sample[2])]
  }

  /** The role of `c` when `w` was chosen as Whisperer. */
  function RoleFor(c: Conn, w: Conn): Role
  {
    if c == w then Whisperer else Explorer
  }

  /** `int(vote)` after the vote was obtained, with every exception turned
      into the vote 1: a timeout, a line `int` cannot read, and an automated
      vote whose `random.choice` found an empty group. */
  function BallotVote(echoes: seq<Echo>, role: Role, b: Ballot): (v: int)
    requires b.Drawn? ==> ChoiceInRange(echoes, role, b.below, b.pick)
    ensures b.Drawn? && IsTriple(echoes) ==> 1 <= v <= 3
  {
    match b
    case Typed(None) => 1
    case Typed(Some(text)) =>
      (match ParseInt(text) case None => 1 case Some(n) => n)
    case Drawn(below, pick) =>
      (match AiVote(echoes, role, below, pick) case None => 1 case Some(n) => n)
  }

  /** A timeout counts as 1, a line that is some integer's decimal form
      counts as that integer whatever its value, and an unreadable line
      counts as 1. */
  lemma HumanVotes(echoes: seq<Echo>, role: Role, n: int, text: string)
    ensures BallotVote(echoes, role, Typed(None)) == 1
    ensures BallotVote(echoes, role, Typed(Some(IntToString(n)))) == n
    ensures ParseInt(text).None? ==> BallotVote(echoes, role, Typed(Some(text))) == 1
  {
    ParseShow(n);
  }

  /** On an accepted triple an automated vote lies in 1..3 and names the
      false echo exactly when the policy draws from the false group. */
  lemma AutomatedVotes(echoes: seq<Echo>, role: Role, below: bool, pick: nat)
    requires IsTriple(echoes) && ChoiceInRange(echoes, role, below, pick)
    ensures 1 <= BallotVote(echoes, role, Drawn(below, pick)) <= 3
    ensures !echoes[BallotVote(echoes, role, Drawn(below, pick)) - 1].isTrue <==> PicksLie(role, below)
  {
    AiVoteOnTriple(echoes, role, below, pick);
  }

  /** Each ballot is of the kind its participant needs (a draw exactly for
      an automated participant), and every automated draw is an index into
      the group the policy chooses from under the participant's role. */
  predicate BallotsOk(clients: seq<Conn>, ais: set<Conn>, w: Conn, echoes: seq<Echo>, ballots: seq<Ballot>)
  {
    |ballots| == |clients| &&
    (forall i :: 0 <= i < |clients| ==> (ballots[i].Drawn? <==> clients[i] in ais)) &&
    (forall i :: 0 <= i < |clients| && ballots[i].Drawn? ==>
       ChoiceInRange(echoes, RoleFor(clients[i], w), ballots[i].below, ballots[i].pick))
  }

  /** The votes of the participants, in participant order. */
  function VoteList(clients: seq<Conn>, ais: set<Conn>, w: Conn, echoes: seq<Echo>, ballots: seq<Ballot>): (vs: seq<int>)
    requires BallotsOk(clients, ais, w, echoes, ballots)
    ensures |vs| == |clients|
    ensures forall i :: 0 <= i < |clients| ==> vs[i] == BallotVote(echoes, RoleFor(clients[i], w), ballots[i])
  {
    seq(|clients|, i requires 0 <= i < |clients| => BallotVote(echoes, RoleFor(clients[i], w), ballots[i]))
  }

  /** The roles loop: every listed client gets its role for this round, and
      roles of connections not listed are kept. */
  method AssignRoles(roles: map<Conn, Role>, clients: seq<Conn>, w: Conn) returns (r: map<Conn, Role>)
    ensures forall i :: 0 <= i < |clients| ==> clients[i] in r && r[clients[i]] == RoleFor(clients[i], w)
    ensures forall c :: c in r <==> c in roles || c in clients
    ensures forall c :: c in roles && c !in clients ==> r[c] == roles[c]
  {
    r := roles;
    for i := 0 to |clients|
      invariant forall j :: 0 <= j < i ==> clients[j] in r && r[clients[j]] == RoleFor(clients[j], w)
      invariant forall c :: c in r <==> c in roles || c in clients[..i]
      invariant forall c :: c in roles && c !in clients[..i] ==> r[c] == roles[c]
    {
      assert clients[..i + 1] == clients[..i] + [clients[i]];
      r := r[clients[i] := RoleFor(clients[i], w)];
    }
    assert clients[..|clients|] == clients;
  }

  /** There is exactly one Whisperer among the participants: the chosen one. */
  lemma OneWhisperer(r: map<Conn, Role>, clients: seq<Conn>, w: Conn)
    requires w in clients
    requires forall i :: 0 <= i < |clients| ==> clients[i] in r && r[clients[i]] == RoleFor(clients[i], w)
    ensures (set c | c in clients && r[c] == Whisperer) == {w}
  {
    var ws := set c | c in clients && r[c] == Whisperer;
    forall c | c in ws ensures c == w {
      var i :| 0 <= i < |clients| && clients[i] == c;
    }
    var k :| 0 <= k < |clients| && clients[k] == w;
    assert r[clients[k]] == Whisperer;
  }

  // ---------------------------------------------------------------------
  // What is sent

  /** The same texts, in order, to one connection. */
  function SendAll(c: Conn, texts: seq<string>): (ls: seq<Line>)
    ensures |ls| == |texts|
    ensures forall i :: 0 <= i < |texts| ==> ls[i] == Line(c, texts[i])
  {
    seq(|texts|, i requires 0 <= i < |texts| => Line(c, texts[i]))
  }

  /** For each recipient in order, all of `texts`. */
  function ToEach(to: seq<Conn>, texts: seq<string>): seq<Line>
  {
    if to == [] then [] else ToEach(to[..|to| - 1], texts) + SendAll(to[|to| - 1], texts)
  }

  /** `broadcast(text)` to the participants. */
  function Broadcast(to: seq<Conn>, text: string): seq<Line>
  {
    ToEach(to, [text])
  }

  /** Consecutive broadcasts of several texts. */
  function BroadcastEach(to: seq<Conn>, texts: seq<string>): seq<Line>
  {
    if texts == [] then [] else BroadcastEach(to, texts[..|texts| - 1]) + Broadcast(to, texts[|texts| - 1])
  }

  /** `ECHO <n>: <text>` for each echo. */
  function EchoTexts(echoes: seq<Echo>): (ts: seq<string>)
    ensures |ts| == |echoes|
    ensures forall i :: 0 <= i < |echoes| ==>
              ts[i] == "ECHO " + IntToString(i + 1) + ": " + echoes[i].text
  {
    seq(|echoes|, i requires 0 <= i < |echoes| => "ECHO " + IntToString(i + 1) + ": " + echoes[i].text)
  }

  function NoteText(i: nat): string
  {
    "NOTE: Echo " + IntToString(i + 1) + " is the lie."
  }

  /** `NOTE: Echo <n> is the lie.` for each false echo. */
  function NoteTexts(echoes: seq<Echo>): seq<string>
  {
    var f := Indices(echoes, false);
    seq(|f|, k requires 0 <= k < |f| => NoteText(f[k]))
  }

  /** On an accepted triple the Whisperer is told exactly one index, and it
      is the index of the false echo. */
  lemma OneNote(echoes: seq<Echo>)
    requires IsTriple(echoes)
    ensures exists f :: 0 <= f < 3 && !echoes[f].isTrue && NoteTexts(echoes) == [NoteText(f)]
  {
    TripleShape(echoes);
    var f := Indices(echoes, false)[0];
    assert NoteTexts(echoes) == [NoteText(f)];
  }

  /** What one participant is sent when the round is set up. */
  function SetupTexts(role: Role, echoes: seq<Echo>): seq<string>
  {
    ["ROLE:" + RoleName(role)] + EchoTexts(echoes) +
    (if role == Whisperer then NoteTexts(echoes) else [])
  }

  /** For each recipient in order, the texts `m` holds for it. */
  function Addressed(to: seq<Conn>, m: map<Conn, seq<string>>): seq<Line>
    requires forall c :: c in to ==> c in m
  {
    if to == [] then [] else Addressed(to[..|to| - 1], m) + SendAll(to[|to| - 1], m[to[|to| - 1]])
  }

  function SetupFor(to: seq<Conn>, w: Conn, echoes: seq<Echo>): (m: map<Conn, seq<string>>)
    ensures forall c :: c in m <==> c in to
    ensures forall c :: c in to ==> m[c] == SetupTexts(RoleFor(c, w), echoes)
  {
    map c | c in to :: SetupTexts(RoleFor(c, w), echoes)
  }

  /** The set-up lines of the round, participant by participant. */
  function SetupLines(to: seq<Conn>, w: Conn, echoes: seq<Echo>): seq<Line>
  {
    Addressed(to, SetupFor(to, w, echoes))
  }

  function Summarised(texts: seq<string>): (ts: seq<string>)
    ensures |ts| == |texts|
    ensures forall i :: 0 <= i < |texts| ==> ts[i] == "SUMMARY: " + texts[i]
  {
    seq(|texts|, i requires 0 <= i < |texts| => "SUMMARY: " + texts[i])
  }

  /** `client_names.get(c, "Unknown")`. */
  function NameOf(v: View, c: Conn): string
  {
    if c in v.names then v.names[c] else "Unknown"
  }

  /** `<name> voted for Echo <vote>.` for each participant. */
  function VoteTexts(v: View, votes: seq<int>): (ts: seq<string>)
    requires |votes| == |v.clients|
    ensures |ts| == |votes|
    ensures forall i :: 0 <= i < |votes| ==>
              ts[i] == NameOf(v, v.clients[i]) + " voted for Echo " + IntToString(votes[i]) + "."
  {
    seq(|votes|, i requires 0 <= i < |votes| =>
      NameOf(v, v.clients[i]) + " voted for Echo " + IntToString(votes[i]) + ".")
  }

  function OutcomeText(lie: bool): string
  {
    if lie then LieOutcome else TruthOutcome
  }

  /** The results part of a resolved round: the header, every vote line and
      the outcome, each broadcast, then each participant's summary. */
  function ResultLines(v: View, votes: seq<int>, lie: bool): seq<Line>
    requires |votes| == |v.clients|
  {
    Results(v.clients, VoteTexts(v, votes), OutcomeText(lie))
  }

  function Results(to: seq<Conn>, voteTexts: seq<string>, outcomeText: string): seq<Line>
  {
    Broadcast(to, ResultsHeader) + BroadcastEach(to, voteTexts) + Broadcast(to, outcomeText) +
    ToEach(to, Summarised(voteTexts + [outcomeText]))
  }

  /** The winner announcement: the Whisperer wins with two accepted lies. */
  function WinnerText(acceptedLies: nat): (t: string)
    ensures t == WhispererWins <==> acceptedLies >= 2
    ensures t == ExplorersWin <==> acceptedLies < 2
  {
    if acceptedLies >= 2 then WhispererWins else ExplorersWin
  }

  // ---------------------------------------------------------------------
  // One round, as a function of its draws

  /** The draws of one pass satisfy what the round needs. */
  predicate DrawsOk(d: Draws)
  {
    |d.ballots| == |d.view.clients| &&
    (d.view.clients != [] ==>
       d.whisperIdx < |d.view.clients| &&
       BallotsOk(d.view.clients, d.view.ais, d.view.clients[d.whisperIdx], Draw(d.sample), d.ballots))
  }

  /** The draws of a pass that satisfy what the round needs. */
  type RoundDraws = d: Draws | DrawsOk(d) witness Draws(View([], map[], {}), 0, [0, 1, 2], [])

  function WhispererOf(d: RoundDraws): Conn
    requires d.view.clients != []
  {
    d.view.clients[d.whisperIdx]
  }

  function RoundVotes(d: RoundDraws): (vs: seq<int>)
    requires d.view.clients != []
    ensures |vs| == |d.view.clients|
  {
    VoteList(d.view.clients, d.view.ais, WhispererOf(d), Draw(d.sample), d.ballots)
  }

  /** How the pass with draws `d` ends: it stops exactly when there are no
      participants, it is redrawn exactly when the triple does not hold two
      true echoes, and otherwise the number it selects is one of the round's
      votes. */
  function Resolve(d: RoundDraws): (r: Outcome)
    ensures r.NoParticipants? <==> d.view.clients == []
    ensures r.Redrawn? <==> d.view.clients != [] && !IsTriple(Draw(d.sample))
    ensures r.BadChoice? || r.Completed? ==> d.view.clients != [] && r.chosen in RoundVotes(d)
  {
    if d.view.clients == [] then NoParticipants
    else if CountTrue(Draw(d.sample)) != 2 then Redrawn
    else
      var chosen := Plurality(RoundVotes(d));
      match PyIndex(Draw(d.sample), chosen - 1)
      case None => BadChoice(chosen)
      case Some(e) => Completed(chosen, !e.isTrue)
  }

  /** Everything the pass with draws `d` sends: nothing when the pass stops
      before the set-up or redraws, the set-up and prompts when the selected
      number is out of range, and those followed by the results when the
      round completes. */
  function RoundOutput(d: RoundDraws): (r: seq<Line>)
    ensures Resolve(d).NoParticipants? || Resolve(d).Redrawn? ==> r == []
    ensures Resolve(d).BadChoice? ==> d.view.clients != [] && r == Opening(d)
    ensures Resolve(d).Completed? ==>
              d.view.clients != [] && r == Opening(d) + ResultLines(d.view, RoundVotes(d), Resolve(d).lie)
  {
    if d.view.clients == [] || CountTrue(Draw(d.sample)) != 2 then []
    else
      var o := Resolve(d);
      if o.Completed? then Opening(d) + ResultLines(d.view, RoundVotes(d), o.lie) else Opening(d)
  }

  /** The set-up lines and the vote prompts of a played round. */
  function Opening(d: RoundDraws): seq<Line>
    requires d.view.clients != []
  {
    SetupLines(d.view.clients, WhispererOf(d), Draw(d.sample)) + ToEach(d.view.clients, [Prompt])
  }

  /** The round ends in one of four ways. Without participants it stops; a
      triple not holding exactly two truths is redrawn. Otherwise the
      selected number is a vote with the highest count, the first such one
      in vote order; a number outside -2..3 stops the game, and any other
      selects `echoes[chosen - 1]` with Python's indexing from the end, and
      the round counts a lie exactly when that echo is false. */
  lemma ResolveMeaning(d: RoundDraws)
    ensures Resolve(d).NoParticipants? <==> d.view.clients == []
    ensures Resolve(d).Redrawn? <==> d.view.clients != [] && !IsTriple(Draw(d.sample))
    ensures Resolve(d).BadChoice? || Resolve(d).Completed? ==>
              var vs := RoundVotes(d);
              var chosen := Resolve(d).chosen;
              IsTriple(Draw(d.sample)) && chosen in vs &&
              (forall x :: x in vs ==> Occurrences(vs, x) <= Occurrences(vs, chosen)) &&
              (forall x :: x in vs && Occurrences(vs, x) == Occurrences(vs, chosen) ==>
                 FirstIndex(vs, chosen) <= FirstIndex(vs, x)) &&
              (Resolve(d).BadChoice? <==> !(-2 <= chosen <= 3)) &&
              (Resolve(d).Completed? ==> (Resolve(d).lie <==> !Draw(d.sample)[(chosen - 1) % 3].isTrue))
  {
    if d.view.clients != [] && CountTrue(Draw(d.sample)) == 2 {
      var vs := RoundVotes(d);
      var chosen := Plurality(vs);
      ResolveCase(d, chosen);
      PluralityIsFirstMax(vs);
      assert Resolve(d).chosen == chosen;
      if Resolve(d).Completed? {
        CompletedLie(d, chosen);
      }
    }
  }

  /** A completed round counts a lie exactly when the echo its number
      indexes, from the end for a number below 1, is false. */
  lemma CompletedLie(d: RoundDraws, chosen: int)
    requires d.view.clients != [] && CountTrue(Draw(d.sample)) == 2
    requires chosen == Plurality(RoundVotes(d)) && Resolve(d).Completed?
    ensures Resolve(d).lie <==> !Draw(d.sample)[(chosen - 1) % 3].isTrue
  {
    ResolveCase(d, chosen);
    var p := PyIndex(Draw(d.sample), chosen - 1);
    assert p.Some? && p.value == Draw(d.sample)[(chosen - 1) % 3];
  }

  /** When every participant votes the same number k in 1..3, the round
      selects echo k. */
  lemma UnanimousRound(d: RoundDraws, k: int)
    requires d.view.clients != [] && IsTriple(Draw(d.sample))
    requires 1 <= k <= 3 && forall i :: 0 <= i < |RoundVotes(d)| ==> RoundVotes(d)[i] == k
    ensures Resolve(d) == Completed(k, !Draw(d.sample)[k - 1].isTrue)
  {
    var vs := RoundVotes(d);
    PluralityIsFirstMax(vs);
    var i :| 0 <= i < |vs| && vs[i] == Plurality(vs);
    ResolveCase(d, k);
  }

  /** A round whose participants are all automated always completes: their
      votes are numbers of echoes, so the selected number is one too. */
  lemma AutomatedRoundCompletes(d: RoundDraws)
    requires d.view.clients != [] && IsTriple(Draw(d.sample))
    requires forall c :: c in d.view.clients ==> c in d.view.ais
    ensures Resolve(d).Completed?
    ensures 1 <= Resolve(d).chosen <= 3
  {
    var vs := RoundVotes(d);
    var echoes := Draw(d.sample);
    var w := WhispererOf(d);
    var cs := d.view.clients;
    forall i | 0 <= i < |vs| ensures 1 <= vs[i] <= 3 {
      assert cs[i] in d.view.ais;
      var b := d.ballots[i];
      AutomatedVotes(echoes, RoleFor(cs[i], w), b.below, b.pick);
    }
    PluralityBounded(vs, 1, 3);
    ResolveCase(d, Plurality(vs));
  }

  // ---------------------------------------------------------------------
  // What each participant receives

  /** The texts of the lines addressed to `c`, in order. */
  function Inbox(ls: seq<Line>, c: Conn): seq<string>
  {
    if ls == [] then []
    else Inbox(ls[..|ls| - 1], c) + (if ls[|ls| - 1].to == c then [ls[|ls| - 1].text] else [])
  }

  lemma {:induction false} InboxAppend(a: seq<Line>, b: seq<Line>, c: Conn)
    ensures Inbox(a + b, c) == Inbox(a, c) + Inbox(b, c)
  {
    if b != [] {
      var n := |b| - 1;
      assert (a + b)[..|a + b| - 1] == a + b[..n];
      var last := if b[n].to == c then [b[n].text] else [];
      assert (a + b)[|a + b| - 1] == b[n];
      assert Inbox(a + b, c) == Inbox(a + b[..n], c) + last;
      InboxAppend(a, b[..n], c);
      assert Inbox(b, c) == Inbox(b[..n], c) + last;
    } else {
      assert a + b == a;
    }
  }

  lemma {:induction false} InboxSendAll(d: Conn, texts: seq<string>, c: Conn)
    ensures Inbox(SendAll(d, texts), c) == if d == c then texts else []
  {
    if texts != [] {
      var n := |texts| - 1;
      assert SendAll(d, texts)[..n] == SendAll(d, texts[..n]);
      InboxSendAll(d, texts[..n], c);
      FrontLast(texts);
    }
  }

  lemma {:induction false} InboxToEach(to: seq<Conn>, texts: seq<string>, c: Conn)
    requires NoDup(to)
    ensures Inbox(ToEach(to, texts), c) == if c in to then texts else []
  {
    if to != [] {
      var n := |to| - 1;
      var p, last := to[..n], to[n];
      NoDupSplit(to);
      InboxToEach(p, texts, c);
      assert ToEach(to, texts) == ToEach(p, texts) + SendAll(last, texts);
      InboxAppend(ToEach(p, texts), SendAll(last, texts), c);
      InboxSendAll(last, texts, c);
    }
  }

  lemma {:induction false} InboxBroadcastEach(to: seq<Conn>, texts: seq<string>, c: Conn)
    requires NoDup(to)
    ensures Inbox(BroadcastEach(to, texts), c) == if c in to then texts else []
  {
    if texts != [] {
      var n := |texts| - 1;
      var p := texts[..n];
      InboxBroadcastEach(to, p, c);
      assert BroadcastEach(to, texts) == BroadcastEach(to, p) + Broadcast(to, texts[n]);
      InboxAppend(BroadcastEach(to, p), Broadcast(to, texts[n]), c);
      InboxToEach(to, [texts[n]], c);
      FrontLast(texts);
    }
  }

  lemma {:induction false} InboxAddressed(to: seq<Conn>, m: map<Conn, seq<string>>, c: Conn)
    requires NoDup(to) && forall d :: d in to ==> d in m
    ensures Inbox(Addressed(to, m), c) == if c in to then m[c] else []
  {
    if to != [] {
      var n := |to| - 1;
      var p, last := to[..n], to[n];
      NoDupSplit(to);
      InboxAddressed(p, m, c);
      assert Addressed(to, m) == Addressed(p, m) + SendAll(last, m[last]);
      InboxAppend(Addressed(p, m), SendAll(last, m[last]), c);
      InboxSendAll(last, m[last], c);
    }
  }

  lemma InboxSetup(to: seq<Conn>, w: Conn, echoes: seq<Echo>, c: Conn)
    requires NoDup(to)
    ensures Inbox(SetupLines(to, w, echoes), c) == if c in to then SetupTexts(RoleFor(c, w), echoes) else []
  {
    InboxAddressed(to, SetupFor(to, w, echoes), c);
  }

  /** Splitting a duplicate-free sequence at its last element. */
  lemma NoDupSplit<T>(s: seq<T>)
    requires NoDup(s) && s != []
    ensures NoDup(s[..|s| - 1]) && s[|s| - 1] !in s[..|s| - 1]
    ensures forall x :: x in s <==> x in s[..|s| - 1] || x == s[|s| - 1]
  {
    var p := s[..|s| - 1];
    forall i, j | 0 <= i < j < |p| ensures p[i] != p[j] {
      assert p[i] == s[i] && p[j] == s[j];
    }
    assert s == p + [s[|s| - 1]];
  }

  lemma ResultsInbox(to: seq<Conn>, voteTexts: seq<string>, outcomeText: string, c: Conn)
    requires NoDup(to)
    ensures Inbox(Results(to, voteTexts, outcomeText), c) ==
              if c in to then [ResultsHeader] + voteTexts + [outcomeText] + Summarised(voteTexts + [outcomeText])
              else []
  {
    var header := Broadcast(to, ResultsHeader);
    var voteLines := BroadcastEach(to, voteTexts);
    var outcome := Broadcast(to, outcomeText);
    var summaries := ToEach(to, Summarised(voteTexts + [outcomeText]));
    InboxAppend(header + voteLines + outcome, summaries, c);
    InboxAppend(header + voteLines, outcome, c);
    InboxAppend(header, voteLines, c);
    InboxToEach(to, [ResultsHeader], c);
    InboxBroadcastEach(to, voteTexts, c);
    InboxToEach(to, [outcomeText], c);
    InboxToEach(to, Summarised(voteTexts + [outcomeText]), c);
  }

  lemma OpeningInbox(to: seq<Conn>, w: Conn, echoes: seq<Echo>, c: Conn)
    requires NoDup(to)
    ensures Inbox(SetupLines(to, w, echoes) + ToEach(to, [Prompt]), c) ==
              if c in to then SetupTexts(RoleFor(c, w), echoes) + [Prompt] else []
  {
    InboxAppend(SetupLines(to, w, echoes), ToEach(to, [Prompt]), c);
    InboxSetup(to, w, echoes, c);
    InboxToEach(to, [Prompt], c);
  }

  /** A completed round had participants and an accepted triple. */
  lemma CompletedShape(d: RoundDraws)
    requires Resolve(d).Completed?
    ensures d.view.clients != [] && CountTrue(Draw(d.sample)) == 2
  {
  }

  /** What a completed round sends: the set-up, the prompts, the results. */
  lemma CompletedOutput(d: RoundDraws)
    requires d.view.clients != [] && CountTrue(Draw(d.sample)) == 2
    requires Resolve(d).Completed?
    ensures RoundOutput(d) == Opening(d) + ResultLines(d.view, RoundVotes(d), Resolve(d).lie)
  {
  }

  /** A round without participants, or with a triple that is redrawn,
      sends nothing. */
  lemma UnplayedCase(d: RoundDraws)
    requires (d.view.clients == [] || CountTrue(Draw(d.sample)) != 2)
    ensures Resolve(d) == if d.view.clients == [] then NoParticipants else Redrawn
    ensures RoundOutput(d) == []
  {
  }

  /** An accepted round resolves by the echo its selected number picks. */
  lemma ResolveCase(d: RoundDraws, chosen: int)
    requires d.view.clients != [] && CountTrue(Draw(d.sample)) == 2
    requires chosen == Plurality(RoundVotes(d))
    ensures Resolve(d) == match PyIndex(Draw(d.sample), chosen - 1)
                          case None => BadChoice(chosen)
                          case Some(e) => Completed(chosen, !e.isTrue)
  {
  }

  /** The output of an accepted round is its opening followed by the result
      lines if the round completed. */
  lemma TripleOutput(d: RoundDraws, outcome: Outcome, start: seq<Line>, mid: seq<Line>, final: seq<Line>)
    requires d.view.clients != [] && CountTrue(Draw(d.sample)) == 2
    requires outcome == Resolve(d) && (outcome.BadChoice? || outcome.Completed?)
    requires mid == start + Opening(d)
    requires outcome.BadChoice? ==> final == mid
    requires outcome.Completed? ==> final == mid + ResultLines(d.view, RoundVotes(d), outcome.lie)
    ensures final == start + RoundOutput(d)
  {
    if outcome.Completed? {
      AppendAssoc3(start, Opening(d), ResultLines(d.view, RoundVotes(d), outcome.lie));
    }
  }

  lemma PrefixSnoc(p: seq<bool>, h: seq<bool>, x: bool)
    requires |p| <= |h| && h[..|p|] == p
    ensures |p| <= |h + [x]| && (h + [x])[..|p|] == p
  {
    assert (h + [x])[..|p|] == h[..|p|];
  }

  lemma SuffixOf(a: seq<Line>, b: seq<Line>)
    ensures |b| <= |a + b| && (a + b)[|a + b| - |b|..] == b
  {
  }

  lemma Regroup(s: seq<Line>, a: seq<Line>, b: seq<Line>, c: seq<Line>, e: seq<Line>)
    ensures s + (a + b) + (c + e) == s + (a + b + c + e)
  {
  }


  /** In a completed round every participant receives, in this order: its
      role, the three echoes, the lie's number only if it is the Whisperer,
      the vote prompt, the results header, every participant's vote line,
      the outcome, and the summary of the vote lines and the outcome.
      A connection that is not a participant receives nothing. */
  lemma RoundInbox(d: RoundDraws, c: Conn)
    requires NoDup(d.view.clients) && Resolve(d).Completed?
    ensures var v := d.view;
            var summary := VoteTexts(v, RoundVotes(d)) + [OutcomeText(Resolve(d).lie)];
            Inbox(RoundOutput(d), c) ==
              if c in v.clients then
                SetupTexts(RoleFor(c, WhispererOf(d)), Draw(d.sample)) + [Prompt] +
                ([ResultsHeader] + VoteTexts(v, RoundVotes(d)) + [OutcomeText(Resolve(d).lie)] + Summarised(summary))
              else []
  {
    CompletedShape(d);
    CompletedOutput(d);
    var cs := d.view.clients;
    var opening := Opening(d);
    var results := ResultLines(d.view, RoundVotes(d), Resolve(d).lie);
    InboxAppend(opening, results, c);
    OpeningInbox(cs, WhispererOf(d), Draw(d.sample), c);
    ResultsInbox(cs, VoteTexts(d.view, RoundVotes(d)), OutcomeText(Resolve(d).lie), c);
  }

  /** An Explorer's set-up names no lie: it is its role and the echoes. */
  lemma ExplorerNotTold(echoes: seq<Echo>)
    ensures SetupTexts(Explorer, echoes) == ["ROLE:Explorer"] + EchoTexts(echoes)
  {
    assert "ROLE:" + RoleName(Explorer) == "ROLE:Explorer";
  }

  // ---------------------------------------------------------------------
  // The game state and the loop

  /** Lies counted over a history of completed rounds. */
  function LieCount(history: seq<bool>): (n: nat)
    ensures n <= |history|
  {
    if history == [] then 0
    else LieCount(history[..|history| - 1]) + (if history[|history| - 1] then 1 else 0)
  }

  lemma LieCountSnoc(h: seq<bool>, lie: bool)
    ensures LieCount(h + [lie]) == LieCount(h) + (if lie then 1 else 0)
  {
    assert (h + [lie])[..|h|] == h;
  }

  /** The vote loop: each participant is prompted and its vote recorded. */
  method CollectVotes(clients: seq<Conn>, ais: set<Conn>, roles: map<Conn, Role>, w: Conn,
                      echoes: seq<Echo>, ballots: seq<Ballot>)
    returns (votes: Dict<Conn, int>, sent: seq<Line>)
    requires NoDup(clients)
    requires forall i :: 0 <= i < |clients| ==> clients[i] in roles && roles[clients[i]] == RoleFor(clients[i], w)
    requires BallotsOk(clients, ais, w, echoes, ballots)
    ensures votes.Valid() && votes.keys == clients
    ensures votes.Values() == VoteList(clients, ais, w, echoes, ballots)
    ensures sent == ToEach(clients, [Prompt])
  {
    var prompt := [Prompt];
    ghost var expected := VoteList(clients, ais, w, echoes, ballots);
    votes := Empty();
    sent := [];
    for i := 0 to |clients|
      invariant votes.Valid() && votes.keys == clients[..i]
      invariant forall j :: 0 <= j < i ==> votes.entries[clients[j]] == expected[j]
      invariant sent == ToEach(clients[..i], prompt)
    {
      var c := clients[i];
      ToEachSnoc(clients[..i], c, prompt);
      TakeSnoc(clients, i);
      sent := sent + SendAll(c, prompt);
      var vote := BallotVote(echoes, roles[c], ballots[i]);
      RecordVote(votes, clients, i, expected);
      votes := votes.Put(c, vote);
    }
    VotesInOrder(votes, clients, expected);
  }

  /** Recording the vote of the next participant keeps the votes dictionary
      listing the participants so far, each with its vote. */
  lemma RecordVote(votes: Dict<Conn, int>, clients: seq<Conn>, i: nat, expected: seq<int>)
    requires NoDup(clients) && i < |clients| == |expected|
    requires votes.Valid() && votes.keys == clients[..i]
    requires forall j :: 0 <= j < i ==> votes.entries[clients[j]] == expected[j]
    ensures votes.Put(clients[i], expected[i]).Valid()
    ensures votes.Put(clients[i], expected[i]).keys == clients[..i + 1]
    ensures forall j :: 0 <= j < i + 1 ==> votes.Put(clients[i], expected[i]).entries[clients[j]] == expected[j]
  {
    var c := clients[i];
    assert c !in clients[..i];
    assert clients[..i + 1] == clients[..i] + [c];
    var d := votes.Put(c, expected[i]);
    forall j | 0 <= j < i + 1 ensures d.entries[clients[j]] == expected[j] {
      if j < i {
        assert clients[j] != c;
      }
    }
  }

  /** Once every participant has voted, the dictionary's values in order are
      the votes in participant order. */
  lemma VotesInOrder(votes: Dict<Conn, int>, clients: seq<Conn>, expected: seq<int>)
    requires |clients| == |expected|
    requires votes.Valid() && votes.keys == clients[..|clients|]
    requires forall j :: 0 <= j < |clients| ==> votes.entries[clients[j]] == expected[j]
    ensures votes.keys == clients
    ensures votes.Values() == expected
  {
    assert clients[..|clients|] == clients;
  }

  lemma ToEachSnoc(to: seq<Conn>, c: Conn, texts: seq<string>)
    ensures ToEach(to + [c], texts) == ToEach(to, texts) + SendAll(c, texts)
  {
    assert (to + [c])[..|to + [c]| - 1] == to;
  }

  class GameState {
    var currentRound: nat
    var acceptedLies: nat
    var running: bool
    var roles: map<Conn, Role>
    var outbox: seq<Line>
    /** For each completed round, whether its selected echo was a lie. */
    ghost var history: seq<bool>

    /** The round counter counts completed rounds, never past the last one,
        and the lie counter counts the lies among them. */
    ghost predicate Valid()
      reads this
    {
      currentRound == |history| <= MaxRounds && acceptedLies == LieCount(history)
    }

    constructor ()
      ensures Valid()
      ensures currentRound == 0 && acceptedLies == 0 && running
      ensures roles == map[] && outbox == [] && history == []
    {
      currentRound, acceptedLies, running := 0, 0, true;
      roles, outbox := map[], [];
      history := [];
    }

    /** The welcome and the role explanations, broadcast once. */
    method Welcome(v: View)
      modifies this
      ensures outbox == old(outbox) + BroadcastEach(v.clients, WelcomeTexts)
      ensures currentRound == old(currentRound) && acceptedLies == old(acceptedLies) &&
              running == old(running) && roles == old(roles) && history == old(history)
    {
      outbox := outbox + BroadcastEach(v.clients, WelcomeTexts);
    }

    /** One pass through the body of `while current_round < max_rounds`. */
    method PlayRound(d: RoundDraws) returns (outcome: Outcome)
      requires Valid() && currentRound < MaxRounds
      requires NoDup(d.view.clients)
      modifies this
      ensures Valid() && running == old(running)
      ensures outcome == Resolve(d)
      ensures outbox == old(outbox) + RoundOutput(d)
      ensures outcome.NoParticipants? || outcome.Redrawn? ==> outbox == old(outbox)
      ensures outcome.BadChoice? ==> d.view.clients != [] && outbox == old(outbox) + Opening(d)
      ensures history == if outcome.Completed? then old(history) + [outcome.lie] else old(history)
      ensures currentRound == old(currentRound) + (if outcome.Completed? then 1 else 0)
      ensures acceptedLies == old(acceptedLies) + (if outcome.Completed? && outcome.lie then 1 else 0)
      ensures outcome.NoParticipants? ==> roles == old(roles)
      ensures d.view.clients != [] ==>
                (forall i :: 0 <= i < |d.view.clients| ==>
                   d.view.clients[i] in roles && roles[d.view.clients[i]] == RoleFor(d.view.clients[i], WhispererOf(d))) &&
                (forall c :: c in roles <==> c in old(roles) || c in d.view.clients) &&
                (forall c :: c in old(roles) && c !in d.view.clients ==> roles[c] == old(roles)[c])
    {
      var v := d.view;
      if v.clients == [] {
        UnplayedCase(d);
        return NoParticipants;
      }
      var w := v.clients[d.whisperIdx];
      roles := AssignRoles(roles, v.clients, w);
      var echoes := Draw(d.sample);
      if CountTrue(echoes) != 2 {
        UnplayedCase(d);
        return Redrawn;
      }
      outcome := PlayTriple(d);
    }

    /** The rest of a round once the triple is accepted: set-up, votes,
        tally and resolution. */
    method PlayTriple(d: RoundDraws) returns (outcome: Outcome)
      requires Valid() && currentRound < MaxRounds
      requires NoDup(d.view.clients)
      requires d.view.clients != [] && CountTrue(Draw(d.sample)) == 2
      requires forall i :: 0 <= i < |d.view.clients| ==>
                 d.view.clients[i] in roles && roles[d.view.clients[i]] == RoleFor(d.view.clients[i], WhispererOf(d))
      modifies this
      ensures Valid() && running == old(running) && roles == old(roles)
      ensures outcome == Resolve(d)
      ensures outbox == old(outbox) + RoundOutput(d)
      ensures history == if outcome.Completed? then old(history) + [outcome.lie] else old(history)
      ensures currentRound == old(currentRound) + (if outcome.Completed? then 1 else 0)
      ensures acceptedLies == old(acceptedLies) + (if outcome.Completed? && outcome.lie then 1 else 0)
    {
      ghost var start := outbox;
      var votes := Open(d);
      ghost var mid := outbox;
      outcome := Conclude(d, votes);
      TripleOutput(d, outcome, start, mid, outbox);
    }

    /** The set-up and the vote loop of an accepted round. */
    method Open(d: RoundDraws) returns (votes: Dict<Conn, int>)
      requires NoDup(d.view.clients) && d.view.clients != []
      requires forall i :: 0 <= i < |d.view.clients| ==>
                 d.view.clients[i] in roles && roles[d.view.clients[i]] == RoleFor(d.view.clients[i], WhispererOf(d))
      modifies this
      ensures votes.Valid() && votes.keys == d.view.clients
      ensures votes.Values() == RoundVotes(d)
      ensures outbox == old(outbox) + Opening(d)
      ensures currentRound == old(currentRound) && acceptedLies == old(acceptedLies) &&
              running == old(running) && roles == old(roles) && history == old(history)
    {
      var v := d.view;
      var w := WhispererOf(d);
      var echoes := Draw(d.sample);
      SetUp(v.clients, w, echoes);
      assert BallotsOk(v.clients, v.ais, w, echoes, d.ballots);
      var prompts;
      votes, prompts := CollectVotes(v.clients, v.ais, roles, w, echoes, d.ballots);
      Send(prompts);
      AppendAssoc3(old(outbox), SetupLines(v.clients, w, echoes), prompts);
    }

    /** The tally of an accepted round and what follows from it. */
    method Conclude(d: RoundDraws, votes: Dict<Conn, int>) returns (outcome: Outcome)
      requires Valid() && currentRound < MaxRounds
      requires d.view.clients != [] && CountTrue(Draw(d.sample)) == 2
      requires votes.Valid() && votes.keys == d.view.clients
      requires votes.Values() == RoundVotes(d)
      modifies this
      ensures Valid() && running == old(running) && roles == old(roles)
      ensures outcome == Resolve(d)
      ensures outcome.BadChoice? || outcome.Completed?
      ensures outcome.BadChoice? ==> outbox == old(outbox)
      ensures outcome.Completed? ==> outbox == old(outbox) + ResultLines(d.view, RoundVotes(d), outcome.lie)
      ensures history == if outcome.Completed? then old(history) + [outcome.lie] else old(history)
      ensures currentRound == old(currentRound) + (if outcome.Completed? then 1 else 0)
      ensures acceptedLies == old(acceptedLies) + (if outcome.Completed? && outcome.lie then 1 else 0)
    {
      var chosen := SelectChosen(votes);
      var values := votes.Values();
      var selected := PyIndex(Draw(d.sample), chosen - 1);
      ResolveCase(d, chosen);
      if selected.None? {
        return BadChoice(chosen);
      }
      var lie := !selected.value.isTrue;
      Announce(d.view, values, lie);
      outcome := Completed(chosen, lie);
    }

    /** The set-up loop: each participant gets its role and the echoes, and
        the Whisperer the lie's number. */
    method SetUp(to: seq<Conn>, w: Conn, echoes: seq<Echo>)
      modifies this
      ensures outbox == old(outbox) + SetupLines(to, w, echoes)
      ensures currentRound == old(currentRound) && acceptedLies == old(acceptedLies) &&
              running == old(running) && roles == old(roles) && history == old(history)
    {
      outbox := outbox + SetupLines(to, w, echoes);
    }

    /** The end of a resolved round: the vote lines and the outcome are
        broadcast, a lie is counted, each participant gets the summary, and
        the round counter advances. */
    method Announce(v: View, values: seq<int>, lie: bool)
      requires Valid() && currentRound < MaxRounds
      requires |values| == |v.clients|
      modifies this
      ensures Valid()
      ensures outbox == old(outbox) + ResultLines(v, values, lie)
      ensures acceptedLies == old(acceptedLies) + (if lie then 1 else 0)
      ensures currentRound == old(currentRound) + 1
      ensures history == old(history) + [lie]
      ensures running == old(running) && roles == old(roles)
    {
      var summary := VoteTexts(v, values);
      var header := Broadcast(v.clients, ResultsHeader);
      var voteLines := BroadcastEach(v.clients, summary);
      ghost var start := outbox;
      Send(header + voteLines);
      if lie {
        acceptedLies := acceptedLies + 1;
      }
      var outcomeText := OutcomeText(lie);
      var outcomeLines := Broadcast(v.clients, outcomeText);
      var summaries := ToEach(v.clients, Summarised(summary + [outcomeText]));
      Send(outcomeLines + summaries);
      Regroup(start, header, voteLines, outcomeLines, summaries);
      currentRound := currentRound + 1;
      LieCountSnoc(history, lie);
      history := history + [lie];
    }

    /** `send_line` for each of `lines`, in order. */
    method Send(lines: seq<Line>)
      modifies this
      ensures outbox == old(outbox) + lines
      ensures currentRound == old(currentRound) && acceptedLies == old(acceptedLies) &&
              running == old(running) && roles == old(roles) && history == old(history)
    {
      outbox := outbox + lines;
    }

    /** After the last round: the winner is broadcast and `running` drops. */
    method Finish(v: View)
      requires Valid() && currentRound == MaxRounds
      modifies this
      ensures Valid() && !running
      ensures outbox == old(outbox) + Broadcast(v.clients, WinnerText(acceptedLies))
      ensures currentRound == old(currentRound) && acceptedLies == old(acceptedLies) &&
              roles == old(roles) && history == old(history)
    {
      outbox := outbox + Broadcast(v.clients, WinnerText(acceptedLies));
      running := false;
    }

    /** `while current_round < max_rounds` over the given draws, one per pass,
        then the winner announcement to the participants of `last`. */
    method Run(draws: seq<RoundDraws>, last: View) returns (status: Status)
      requires Valid() && running
      requires forall k :: 0 <= k < |draws| ==> NoDup(draws[k].view.clients)
      modifies this
      ensures Valid()
      ensures acceptedLies >= old(acceptedLies) && currentRound >= old(currentRound)
      ensures |old(history)| <= |history| && history[..|old(history)|] == old(history)
      ensures status.Finished? <==> currentRound == MaxRounds && !running
      ensures status.Finished? ==>
                (status.whispererWon <==> LieCount(history) >= 2) &&
                var announced := Broadcast(last.clients, WinnerText(acceptedLies));
                |announced| <= |outbox| && outbox[|outbox| - |announced|..] == announced
      ensures status.Stopped? ==> status.outcome.NoParticipants? || status.outcome.BadChoice?
      ensures !status.Finished? ==> running
    {
      var k := 0;
      while currentRound < MaxRounds && k < |draws|
        invariant Valid() && running && k <= |draws|
        invariant acceptedLies >= old(acceptedLies) && currentRound >= old(currentRound)
        invariant |old(history)| <= |history| && history[..|old(history)|] == old(history)
        decreases |draws| - k
      {
        ghost var h := history;
        var outcome := PlayRound(draws[k]);
        if outcome.Completed? {
          PrefixSnoc(old(history), h, outcome.lie);
        }
        k := k + 1;
        if outcome.NoParticipants? || outcome.BadChoice? {
          return Stopped(outcome);
        }
      }
      if currentRound < MaxRounds {
        return Unfinished;
      }
      ghost var before := outbox;
      Finish(last);
      SuffixOf(before, Broadcast(last.clients, WinnerText(acceptedLies)));
      status := Finished(acceptedLies >= 2);
    }
  }
}
