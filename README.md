# Echoes & Lies — a Dafny model of the game server's core and the client's line reader

Echoes & Lies is a networked social-deduction game. A server accepts
participants over TCP. Each round it picks one participant as the
*Whisperer*, who knows which of three "echoes" (short statements) is false,
and makes everybody else an *Explorer*. It draws three echoes from a
six-entry bank, accepting only triples with exactly two true echoes. It
sends every participant its role and the echoes, and tells the Whisperer the
lie's number. Then it collects one vote per participant. A human's client sends the
number of the orb the player clicks; participants whose name starts with
"ai" vote by a fixed random policy. The server tallies the votes and resolves the round by the
most-voted echo, the tie going to the number voted first. A selected false
echo counts as an accepted lie. After three rounds the Whisperer wins with
two or more accepted lies, otherwise the Explorers win. The client splits
what it receives into lines and turns them into screen state: messages,
pending echoes, the three orbs showing the echoes, and whether a vote may be
cast.

The model covers:

- the participant registry kept by the connection handlers: join, queueing
  of incoming vote lines until the peer closes the connection, leave
  (`Registry`, a class whose methods are the critical sections);
- the automated vote policy, with its random draws as parameters
  (`AiAgent`);
- the game loop (`RoundEngine`, class `GameState`) as it works: the welcome
  broadcast, role assignment, drawing and accepting a triple, the set-up
  lines, the vote loop, the tally, resolution, results and summaries, the
  round and lie counters, and the winner announcement. Every line sent
  goes into an outbox, in order. Each round is also described as a pure
  function of its draws (`Resolve`, `RoundOutput`), and the methods are
  proved to produce exactly that;
- the tally as the source builds it: an insertion-ordered `dict` filled
  vote by vote, then Python's `max` over its items (`Tally` and
  `OrderedDict`). It is proved against an independent definition: counts
  are occurrences, and the winner is a first occurrence among the most
  voted;
- the client's reader thread (`ClientReader`, class `Reader`): the receive
  buffer, the split into lines at each newline, and the handling of each
  line by its prefix;
- the Python string and integer operations the game relies on, with
  Python's meaning: `str.strip`, `lower().startswith("ai")`, `in`,
  `split(sep, 1)`, `int()` and `str()` (`PyText`, `PyInt`), and list
  indexing with negative indices (`Common.PyIndex`).

Randomness, the clock and the network are parameters. A round's draws
(`RoundEngine.Draws`) are the registry view the round reads, the index
`random.choice` picks for the Whisperer, the three bank positions
`random.sample` returns, and one ballot per participant. A human's ballot is
the line taken from its vote queue, or None for a timeout. An automated
participant's ballot is the outcome of `random.random() < p` plus the index
`random.choice` picks. The client's input is the sequence of chunks that
`recv` returns.

Where the code and the written description of the game differ, the model
follows the code:

- A vote is any integer that `int()` accepts, not only 1..3.
- Vote 0 and negative votes down to -2 select an echo counted from the end,
  by Python's indexing.
- A larger number, or a vote below -2, raises in `echoes[chosen - 1]`. That
  ends the game thread: `Outcome.BadChoice`.
- Votes are collected one participant after another, not concurrently.
- `random.choice` on an empty client list raises and ends the game thread
  (`Outcome.NoParticipants`); the round is not retried.

## Model

| member | source | states |
|---|---|---|
| Common.PyIndex | Echoes_And_Lies.py:136 | `echoes[k]` exists exactly for -len..len-1, and a negative index counts from the end |
| Common.RemoveFirstNoDup | Echoes_And_Lies.py:69-70 | removing a connection from a duplicate-free client list removes it, keeps the list duplicate-free, keeps every other connection, and a second removal changes nothing |
| PyText.StripSpec | Echoes_And_Lies.py:48 | `strip()` returns the middle of the string between a whitespace prefix and a whitespace suffix, starting and ending with non-whitespace; it is empty exactly for all-whitespace input |
| PyText.Strip | Echoes_And_Lies.py:48 | `str.strip()`; its meaning is the one `StripSpec`, `StripNoop` and `StripPadded` prove |
| PyText.StripNoop | Echoes_And_Lies.py:63 | a string without whitespace at either end is unchanged by `strip()` |
| PyText.StripPadded | Echoes_And_Lies.py:63 | whitespace around a string with non-whitespace ends is removed exactly |
| PyText.Find | Echoes_And_Lies.py:262 | a found position holds the pattern, and nothing is found exactly when the pattern does not occur |
| PyText.FindNoEarlier | Echoes_And_Lies.py:262 | the pattern does not start at any position before the one found |
| PyText.SplitOnce | Echoes_And_Lies.py:262 | `split(sep, 1)` has a second part exactly when `sep` occurs, and the two parts joined by `sep` give back the string |
| PyText.SplitOnceFirst | Echoes_And_Lies.py:262 | the split is at the first occurrence of `sep` |
| PyText.LowerCharHead | Echoes_And_Lies.py:55 | a lowered character starts with `a` only for a/A and with `i` only for i/I/U+0130 |
| PyText.AutomatedNameChars | Echoes_And_Lies.py:55 | `name.lower().startswith("ai")` holds exactly when the name starts with a/A followed by i/I/U+0130 |
| PyText.IsAutomatedName | Echoes_And_Lies.py:55 | `name.lower().startswith("ai")`; `AutomatedNameChars` reduces it to the first two characters |
| PyInt.ParseInt | Echoes_And_Lies.py:126 | `int()` succeeds only on text that holds a digit |
| PyInt.NatToStringValue | Echoes_And_Lies.py:112 | `str(n)` prints the digits whose value is `n` |
| PyInt.IntToString | Echoes_And_Lies.py:143 | `str(n)` is non-empty, starts with `-` exactly for negative n, and is digits after that; `ParseShow` reads n back from it |
| PyInt.ParseShow | Echoes_And_Lies.py:126 | `int(str(n)) == n` for every integer |
| PyInt.ParsePadded | Echoes_And_Lies.py:126 | whitespace around a printed integer does not change what `int()` reads |
| Game.Indices | Echoes_And_Lies.py:74-75 | the listed positions are exactly the echoes with the given truth value |
| Game.BankEcho | Echoes_And_Lies.py:14-21 | the bank holds the six statements, the true ones at positions 0, 2 and 4 |
| Game.CountTrue | Echoes_And_Lies.py:106 | the number of true echoes, never more than the number of echoes |
| Game.IndicesCount | Echoes_And_Lies.py:74-75 | each such echo is listed once |
| Game.IndicesIncreasing | Echoes_And_Lies.py:74-75 | the positions are listed in increasing order |
| Game.TripleShape | Echoes_And_Lies.py:106 | an accepted triple has exactly one false echo and two true ones |
| AiAgent.Choice | Echoes_And_Lies.py:78 | `random.choice(xs) + 1` raises exactly on an empty list and otherwise returns a listed index plus one |
| AiAgent.AiVote | Echoes_And_Lies.py:73-85 | the vote is an echo number, and the echo is false exactly when the policy draws from the false group (Explorer not below 0.5, Whisperer below 0.7); it raises exactly when that group is empty |
| AiAgent.AiVoteOnTriple | Echoes_And_Lies.py:73-85 | on an accepted triple the policy never raises, votes 1..3, and names the lie exactly when it draws from the false group |
| OrderedDict.Dict.Put | Echoes_And_Lies.py:132 | `d[k] = v` stores `v`, keeps the position of a present key and appends a new one |
| OrderedDict.Dict.Values | Echoes_And_Lies.py:131 | `d.values()` lists the values in key insertion order |
| OrderedDict.Empty | Echoes_And_Lies.py:118 | `{}` has no keys |
| Registry.Registry.constructor | Echoes_And_Lies.py:23-28 | the registry starts empty |
| Registry.Registry.Join | Echoes_And_Lies.py:48-56 | the new connection is appended to the clients under its stripped name, gets two empty queues, and is automated exactly when its name lowered starts with "ai"; nothing else changes |
| Registry.Registry.Register | Echoes_And_Lies.py:50-56 | the registry entries of a new connection are added and the registry stays consistent |
| Registry.Registry.Forward | Echoes_And_Lies.py:59-64 | an empty chunk (the peer closed) queues nothing and ends the loop; any other chunk is stripped and appended to that connection's vote queue; nothing else changes |
| Registry.Registry.Leave | Echoes_And_Lies.py:68-71 | the connection leaves the client list if it was there, every other client stays, and names, queues and the automated set keep their entries |
| Registry.Registry.Serve | Echoes_And_Lies.py:58-71 | the handler queues, in order, the stripped chunks received before the first empty one, and then the connection leaves the client list; names and the automated set are kept |
| Registry.QueuedOpen | Echoes_And_Lies.py:59-64 | while no chunk is empty, every chunk is queued, stripped, in the order received |
| Registry.QueuedAfterClose | Echoes_And_Lies.py:61-62 | nothing received after an empty chunk is queued |
| Registry.Registry.Snapshot | Echoes_And_Lies.py:100-101 | the round reads the client list, names and automated set, and the client list has no duplicates |
| Registry.LeaveTwice | Echoes_And_Lies.py:68-71 | leaving twice has the effect of leaving once |
| RoundEngine.Draw | Echoes_And_Lies.py:105 | the triple is the bank echoes at the three sampled positions, in sample order |
| RoundEngine.AssignRoles | Echoes_And_Lies.py:101-103 | each participant is Whisperer exactly when it is the chosen one; roles of other connections are kept |
| RoundEngine.OneWhisperer | Echoes_And_Lies.py:101-103 | after role assignment exactly one participant, the chosen one, is Whisperer |
| RoundEngine.HumanVotes | Echoes_And_Lies.py:125-128 | a timeout records 1, a line `int()` cannot read records 1, and a printed integer records that integer |
| RoundEngine.AutomatedVotes | Echoes_And_Lies.py:122-123 | on an accepted triple an automated vote is 1..3 and names the lie exactly when the policy draws from the false group |
| RoundEngine.VoteList | Echoes_And_Lies.py:118-128 | every participant gets a vote, in participant order, as its ballot says |
| RoundEngine.BallotVote | Echoes_And_Lies.py:120-128 | an automated participant's vote on an accepted triple is 1..3 (`HumanVotes` gives the typed cases) |
| RoundEngine.SendAll | Echoes_And_Lies.py:110-116 | one connection receives the texts in order |
| RoundEngine.EchoTexts | Echoes_And_Lies.py:111-112 | the n-th `ECHO` line carries number n and the n-th echo's text |
| RoundEngine.OneNote | Echoes_And_Lies.py:113-116 | on an accepted triple the Whisperer's notes name exactly one index, that of the false echo |
| RoundEngine.ExplorerNotTold | Echoes_And_Lies.py:113-116 | an Explorer's set-up is its role and the echoes, with no note |
| RoundEngine.SetupFor | Echoes_And_Lies.py:109-116 | each participant's set-up texts follow its role |
| RoundEngine.Summarised | Echoes_And_Lies.py:157-159 | every summary line is `SUMMARY: ` followed by the round line |
| RoundEngine.VoteTexts | Echoes_And_Lies.py:140-145 | the i-th vote line names the i-th participant, or "Unknown", and its vote |
| RoundEngine.ResolveMeaning | Echoes_And_Lies.py:99-151 | a round stops without participants, is redrawn exactly when the triple does not hold two true echoes, and otherwise selects a voted number: none has more votes, ties go to the first voted, a number outside -2..3 stops the game, and a lie is counted exactly when the selected echo is false |
| RoundEngine.Resolve | Echoes_And_Lies.py:99-136 | a pass stops exactly without participants, is redrawn exactly when the triple does not hold two true echoes, and otherwise selects one of the round's votes |
| RoundEngine.RoundOutput | Echoes_And_Lies.py:109-159 | a pass that stops or redraws sends nothing, a bad number sends only the set-up and prompts, and a completed round sends those followed by the results |
| RoundEngine.UnanimousRound | Echoes_And_Lies.py:130-151 | when all vote the same k in 1..3, echo k is selected, and the round counts a lie exactly when it is false |
| RoundEngine.AutomatedRoundCompletes | Echoes_And_Lies.py:122-136 | a round in which every participant is automated always completes with a number in 1..3 |
| RoundEngine.InboxToEach | Echoes_And_Lies.py:43-45 | a broadcast reaches each participant once, and nobody else |
| RoundEngine.InboxBroadcastEach | Echoes_And_Lies.py:92-97 | consecutive broadcasts reach each participant in order |
| RoundEngine.InboxSetup | Echoes_And_Lies.py:109-116 | each participant receives exactly its own set-up lines |
| RoundEngine.ResultsInbox | Echoes_And_Lies.py:138-159 | each participant receives the header, the vote lines, the outcome and then the summary of these |
| RoundEngine.OpeningInbox | Echoes_And_Lies.py:109-121 | each participant receives its set-up and then the vote prompt |
| RoundEngine.RoundInbox | Echoes_And_Lies.py:109-159 | in a completed round each participant receives, in order: role, echoes, the note only if Whisperer, the prompt, the results and the summary; non-participants receive nothing |
| RoundEngine.LieCountSnoc | Echoes_And_Lies.py:147-148 | one more round adds 1 to the lie count exactly when it was a lie |
| RoundEngine.CollectVotes | Echoes_And_Lies.py:118-128 | the vote loop prompts each participant once, in order, and records every participant's vote in participant order |
| RoundEngine.RecordVote | Echoes_And_Lies.py:126 | recording the next participant's vote keeps the dictionary listing the participants so far with their votes |
| RoundEngine.VotesInOrder | Echoes_And_Lies.py:131 | after the loop, `votes.values()` are the votes in participant order |
| RoundEngine.GameState.constructor | Echoes_And_Lies.py:31-35 | no rounds played, no lies, running |
| RoundEngine.GameState.Welcome | Echoes_And_Lies.py:92-97 | the six welcome texts are broadcast in order and nothing else changes |
| RoundEngine.GameState.PlayRound | Echoes_And_Lies.py:99-161 | one pass resolves as `Resolve` says and sends what `RoundOutput` says: nothing when it stops without participants or redraws, only the set-up and prompts on a bad number; a completed round advances the counter by one and the lie count by one exactly on a lie; otherwise neither moves |
| RoundEngine.GameState.PlayTriple | Echoes_And_Lies.py:109-161 | the rest of an accepted round, with the same guarantees |
| RoundEngine.GameState.Open | Echoes_And_Lies.py:109-128 | set-up lines and prompts are sent, and the votes collected are the round's votes |
| RoundEngine.GameState.Conclude | Echoes_And_Lies.py:130-161 | the tally selects the number `Resolve` selects; a bad number stops with nothing sent, otherwise the results are sent and the counters advance |
| RoundEngine.GameState.SetUp | Echoes_And_Lies.py:109-116 | the set-up lines are sent in participant order |
| RoundEngine.GameState.Announce | Echoes_And_Lies.py:138-161 | header, vote lines, outcome and summaries are sent; the lie count grows by one exactly on a lie, and the round counter by one |
| RoundEngine.GameState.Send | Echoes_And_Lies.py:37-41 | sent lines are appended to the outbox in order |
| RoundEngine.GameState.Finish | Echoes_And_Lies.py:164-169 | "Whisperer wins" is broadcast exactly with two or more lies, otherwise "Explorers win", and `running` drops |
| RoundEngine.WinnerText | Echoes_And_Lies.py:164-167 | the announcement is "Whisperer wins" exactly with two or more accepted lies, and "Explorers win" exactly with fewer |
| RoundEngine.GameState.Run | Echoes_And_Lies.py:99-169 | counters never decrease; the game finishes exactly after the last round, and then the winner text matches the lie count and is the last thing sent; it stops early only without participants or on a bad number |
| Tally.Dedup | Echoes_And_Lies.py:130-132 | the tally's keys are the voted numbers, each once |
| Tally.TallyOf | Echoes_And_Lies.py:130-132 | the tally has exactly the voted numbers as keys |
| Tally.TallyCount | Echoes_And_Lies.py:130-132 | each number's count is its number of votes |
| Tally.DedupOrder | Echoes_And_Lies.py:130-132 | the keys are in the order of their first vote |
| Tally.TallySumsToVotes | Echoes_And_Lies.py:130-132 | the counts add up to the number of votes |
| Tally.CountStep | Echoes_And_Lies.py:132 | one pass of the counting loop turns the tally of the votes so far into the tally of one more vote |
| Tally.CountVotes | Echoes_And_Lies.py:130-132 | the counting loop builds the tally in first-vote order |
| Tally.LeaderPos | Echoes_And_Lies.py:135 | `max` keeps the first item with the highest count |
| Tally.PluralityIsFirstMax | Echoes_And_Lies.py:130-135 | the selected number was voted, no number got more votes, and among equals it was voted first |
| Tally.Plurality | Echoes_And_Lies.py:130-135 | the selected number is one of the votes (`PluralityIsFirstMax` gives the rest) |
| Tally.PluralityBounded | Echoes_And_Lies.py:135 | when all votes lie in a range, so does the selected number |
| Tally.FirstMax | Echoes_And_Lies.py:135 | the loop over the items returns the first key with the highest count |
| Tally.SelectChosen | Echoes_And_Lies.py:130-135 | counting followed by `max` selects the plurality winner, a voted number |
| ClientReader.Orbs | Echoes_And_Lies.py:277 | the i-th orb shows the i-th echo text and carries number i + 1, since `Orb.__init__` stores `idx + 1` |
| ClientReader.LineStepKeeps | Echoes_And_Lies.py:264-283 | only an `ECHO` line without `": "` raises; otherwise a line adds at most one message, never clears `vote_ready`, leaves fewer than three echoes pending, and changes the orbs only on the third echo, to orbs 1, 2, 3 showing the pending echoes in order |
| ClientReader.LineStep | Echoes_And_Lies.py:264-283 | only an `ECHO` line changes the pending echoes or the orbs, and only a line containing "Choose the echo" changes `vote_ready` |
| ClientReader.RoleSplit | Echoes_And_Lies.py:268 | `split(":", 1)` on a `ROLE:` line splits right after the tag |
| ClientReader.RoleLine | Echoes_And_Lies.py:267-269 | a `ROLE:` line adds the message naming the stripped role |
| ClientReader.EchoStep | Echoes_And_Lies.py:274-278 | an `ECHO` line queues its text; the third turns the queue into the orbs in order and empties it; messages and `vote_ready` are untouched |
| ClientReader.EchoTriple | Echoes_And_Lies.py:274-278 | three `ECHO` lines with nothing pending become orbs numbered 1, 2, 3 in arrival order |
| ClientReader.EchoIsNotOther | Echoes_And_Lies.py:266-274 | an `ECHO` line is not empty and carries none of the prefixes tested before it |
| ClientReader.FrameJoin | Echoes_And_Lies.py:261-263 | the split-off lines, each with its newline, followed by the remainder give back the buffer |
| ClientReader.Frame | Echoes_And_Lies.py:261-263 | the lines `while "\n" in buffer` splits off and the remainder; `FrameJoin`, `FrameRest`, `FrameLines` and `FrameEmpty` give its meaning |
| ClientReader.FrameEmpty | Echoes_And_Lies.py:261 | a line is split off exactly when the buffer holds a newline |
| ClientReader.FrameRest | Echoes_And_Lies.py:261-263 | the remainder holds no newline |
| ClientReader.FrameLines | Echoes_And_Lies.py:261-263 | no split-off line holds a newline |
| ClientReader.FrameAppend | Echoes_And_Lies.py:260-263 | appending a chunk splits off the buffer's lines first, then those of the remainder with the chunk |
| ClientReader.FrameAppendRest | Echoes_And_Lies.py:260-263 | appending a chunk leaves the remainder that the old remainder and the chunk leave |
| ClientReader.Steps | Echoes_And_Lies.py:261-285 | the inner loop handles at most the lines it is given |
| ClientReader.StepsKeeps | Echoes_And_Lies.py:261-283 | over any run of lines messages only grow, `vote_ready` is never reset, and fewer than three echoes stay pending |
| ClientReader.StepsSnoc | Echoes_And_Lies.py:261-283 | handling one more line extends the run by that line's step, or stops it there |
| ClientReader.StepsStop | Echoes_And_Lies.py:284-285 | once a line raises, later lines are not handled |
| ClientReader.StepsAppend | Echoes_And_Lies.py:261-283 | handling two runs of lines in a row is handling the first, then the second |
| ClientReader.ChunkBoundary | Echoes_And_Lies.py:257-263 | two chunks in a row are handled like their concatenation |
| ClientReader.SessionWhole | Echoes_And_Lies.py:256-285 | a session that keeps running shows what one chunk holding all of its text would have shown |
| ClientReader.Session | Echoes_And_Lies.py:256-285 | the reader thread over a sequence of chunks; a session still running has received no empty chunk |
| ClientReader.Reader.constructor | Echoes_And_Lies.py:205-207 | no orbs, no messages, `vote_ready` false, and (lines 254-255) an empty buffer and no pending echoes |
| ClientReader.Reader.HandleLine | Echoes_And_Lies.py:264-283 | handling one line changes the screen as `LineStep` says, or nothing when it raises |
| ClientReader.Reader.Receive | Echoes_And_Lies.py:257-263 | an empty chunk ends the thread; otherwise the complete lines of buffer plus chunk are handled in order and the remainder kept |
| ClientReader.Reader.Drain | Echoes_And_Lies.py:261-283 | the buffer is consumed line by line until no newline is left or a line raises |
| ClientReader.Reader.Listen | Echoes_And_Lies.py:256-285 | the thread fed a sequence of chunks leaves the screen `Session` describes and is running exactly when `Session` says |

## Left out

- Sockets, `recv`, `sendall`, `connect`, `accept` and `start_server` are left out. Lines sent are appended to an outbox. Lines received are the chunks given to `Registry.Registry.Serve` and `ClientReader.Reader.Listen`.
- `send_line` swallows send errors; in the model every send succeeds.
- The 1024-byte limit of `recv` and UTF-8 decoding are left out. Chunks are strings, so a decode error, which ends a thread, does not occur.
- `conn.close()` in the connection handler is left out, as I/O.
- Threads, the lock, and `queue.Queue.get(timeout=30)` are left out. Each registry method is one critical section.
- A human's vote is a ballot parameter (a line, or None for a timeout). Its link to the contents of the vote queue that `Serve` fills is not modelled, so the model does not capture stale lines from earlier rounds becoming later votes.
- The vote and result loops read the live client list. The model gives each round one fixed view, so a join or leave in the middle of a round is not captured.
- `handle_client` checks `running` before each `recv`; `Registry.Registry.Serve` does not, because the end of the game reaches the handlers only through timing.
- `input()` before the welcome, `print`, and `time.sleep(2)` between rounds are console and timing.
- `random.random`, `random.sample` and `random.choice` are not modelled. Their outcomes are parameters with range preconditions, and there are no claims about distributions.
- `GameState.Run` takes a finite list of draws. Running out of draws before the last round returns `Unfinished`, which the source cannot do.
- `int()` is modelled for ASCII digits, a sign and single underscores between digits. The Unicode digits that Python also accepts are left out.
- `str.lower()` is modelled for A–Z and U+0130 only. These are the only characters whose lowered form can start with "a" or "i", which is all that the "ai" test reads.
- On the client, the pygame window, the main loop, mouse hit-testing, the vote sent on a click, `wrap_text`, and the float physics of `Orb` are left out. An `Orb` keeps only its text and number.
- `Registry.Registry.Join` requires a connection that never joined before, since each accepted socket is a new object with its own handler.
