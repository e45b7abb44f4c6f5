# Colour-guessing game: verified model of the round and score state machine

The game shows a target colour swatch and six option buttons. Exactly one
option matches the target. Clicking the match scores a point and, 1.5 s
later, starts a new round. Clicking any other option shows a miss. A
"New Game" button starts a new round at any time.

This project models the logic of the single `ColorGame` component:

- **Colours** (module `Colors`, `colors.dfy`). A channel is `floor(x * 256)` for a
  draw `x` in [0, 1). `FormatRgb` builds the string `rgb(R, G, B)`, which the
  game stores and compares. The parser `ParseRgb` is the independent reading
  of that form, with no leading zeros. Formatting and then parsing gives the
  triple back, and the formatted string is the only text that parses to it,
  so comparing the strings is the same as comparing the triples.
- **Round building** (module `Round`, `round.dfy`). `BuildOptions` is the
  `while` loop of the round initialiser, written as a method. It is proved
  equal to the specification function `Grow`. `Shuffle` reorders the options
  by a permutation of positions. Lemmas show that the round has six distinct
  options and holds the target exactly once, and that reordering keeps the
  multiset of colours.
- **Session** (module `Game`, `game.dfy`). The class `ColorGame` has the four
  state fields of the component: `targetColor`, `colorOptions`, `score` and
  `gameStatus`. A fifth field, `pendingRestarts`, counts the restarts
  scheduled by correct guesses that have not fired yet. Each method is tied
  to a pure transition on `Snapshot` values (`Restarted`, `Selected`,
  `Step`). Lemmas over whole event sequences show three things:
  - every state after the first round holds a well-formed round;
  - the score never decreases and grows by at most one per click;
  - a second restart erases the first.

Randomness becomes input. A `Draws` value holds:

- the target's channels;
- a finite stream of further channel triples, consumed one per loop pass;
- the permutation the shuffle produces.

The round initialiser requires that the draws hold six distinct triples and a
permutation of six positions. `BuildOptions` itself has no such requirement.
It states exactly when its result reaches six entries. Each handler runs as
one atomic update of the fields.

Behaviour of the code worth knowing:

- A correct click does not end the round at once. The target stays on the
  board until the scheduled restart fires. Clicking it again in that window
  scores again and schedules one more restart. The model allows this: each
  correct click adds one point and one pending restart.
- The status messages are modelled as the exact characters in the source
  file. In that file each emoji's UTF-8 bytes were decoded a second time as
  single-byte text, so the success message ends in `ðŸŽ‰`, not in 🎉.
- The status is a string: empty, the success message or the failure
  message (src/App.jsx:7, 35, 42, 45). The model keeps it a string.

## Model

| member | source | states |
|---|---|---|
| `Colors.ChannelOf` | src/App.jsx:11-13 | A channel drawn as `floor(x * 256)` for `x = num/den` in [0, 1) lies in [0, 255]. It is the unique c with `c * den <= num * 256 < (c + 1) * den`. |
| `Colors.Decimal` | src/App.jsx:14 | The text that interpolating a channel produces is non-empty and all digits. It starts with `0` exactly when the channel is zero, and then it is the single character `0`, so there are no leading zeros. |
| `Colors.ValueOfDecimal` | src/App.jsx:14 | Reading that decimal text back gives the channel's number. |
| `Colors.FormatRgb` | src/App.jsx:14 | The colour string has the form `rgb(R, G, B)`: the reference parser reads it back as the same triple (proved by `Colors.FormatRoundTrip`). `Colors.FormatInjective` follows from it. |
| `Colors.FormatRoundTrip` | src/App.jsx:10-15 | Parsing the text as literal `rgb(`, channel, `, `, channel, `, `, channel, `)` gives back the same three channels. |
| `Colors.DecimalOfValue` | src/App.jsx:14 | Every digit string without a leading zero is the decimal text of its own value, so that text is unique for each number. |
| `Colors.ParseRgbOnlyFormatted` | src/App.jsx:14 | The only text the parser (which refuses leading zeros) reads as a triple is that triple's formatted string. With `Colors.FormatRgb`'s contract, the parser is the exact inverse of formatting, which fixes the colour text character for character. |
| `Colors.FormatInjective` | src/App.jsx:14 | Two triples give the same string only when they are equal. So the string tests at lines 25 and 40 compare colours by value. |
| `Round.BuildOptions` | src/App.jsx:19-28 | The loop, seeded with the correct colour, returns `Grow([correct], draws)`. That list has 1 to 6 entries, no repeats and the correct colour first. Every entry is the correct colour or a drawn colour. |
| `Round.Grow` | src/App.jsx:23-28 | What the loop computes. Growing keeps the seed as a prefix. A seed of at most six stays at most six, a seed without repeats stays without repeats, and only drawn colours are added. `Round.GrowFills` gives when it reaches six. |
| `Round.GrowFills` | src/App.jsx:23-28 | The loop reaches six entries if and only if the seed and the draws hold at least six distinct colours between them. |
| `Round.ColorSetSize` | src/App.jsx:24-25 | A stream of draws holds as many distinct colour strings as distinct channel triples. |
| `Round.RoundFromDraws` | src/App.jsx:19-28 | When the draws hold six distinct triples, the loop ends with exactly six distinct options and the target first. |
| `Round.DistinctCard` | src/App.jsx:25-26 | A list built without repeats has as many distinct colours as entries. |
| `Round.DistinctOnce` | src/App.jsx:20-26 | In a list without repeats, each member occurs exactly once. So the target occurs once among the options. |
| `Round.ShuffleKeepsColors` | src/App.jsx:31 | Reordering the options by any permutation keeps their multiset of colours. |
| `Round.Shuffle` | src/App.jsx:31 | The sort as a caller-chosen permutation of positions. It keeps the length and keeps a list free of repeats. `Round.ShuffleKeepsColors` shows it keeps the multiset. |
| `Round.NewOptions` | src/App.jsx:19-31 | The grown and shuffled list is a well-formed round: six entries, no repeats, the target exactly once. |
| `Game.Restarted` | src/App.jsx:18-36 | A restart produces a well-formed round and clears the status. It keeps the score and the pending restarts. |
| `Game.Selected` | src/App.jsx:39-47 | The click transition. The score rises by exactly one if and only if the clicked colour is the target, and is unchanged otherwise. The status becomes the success or the failure message accordingly. One restart is scheduled per point scored. Target and options are untouched. |
| `Game.ColorGame.constructor` | src/App.jsx:4-7 | The initial state: empty target, no options, score 0, empty status, nothing scheduled. |
| `Game.ColorGame.StartNewGame` | src/App.jsx:18-36 | The target becomes the first drawn colour. The options become the shuffled grown list: six distinct entries with the target once. Status becomes `""`. Score is unchanged. |
| `Game.ColorGame.HandleColorClick` | src/App.jsx:39-47 | Clicking the target adds exactly 1 to the score, sets the success message and schedules one restart. Any other click sets the failure message and changes nothing else. Target and options never change here. |
| `Game.ColorGame.FireScheduledRestart` | src/App.jsx:43 | A scheduled restart uses up one pending restart and runs the round initialiser. The score is untouched. |
| `Game.RunKeepsRound` | src/App.jsx:18-47 | Starting from a well-formed round, every sequence of clicks, manual restarts and timer firings ends in a well-formed round. |
| `Game.SessionRounds` | src/App.jsx:50-52 | After the mount-time restart from the initial state, every later state holds a well-formed round. |
| `Game.RunScore` | src/App.jsx:39-47 | Over any sequence of events, the score never decreases. It grows by at most the number of option clicks, so restarts never change it. |
| `Game.RestartOverwrites` | src/App.jsx:43 | Restarting twice gives the same state as the second restart alone. So the timer's restart after a manual one is harmless. |

## Left out

- Rendering, covered by src/App.jsx:54-114: the swatch, the score text, the buttons and the Tailwind classes. This includes the green/red class choice at lines 82-84. It is presentation only.
- `Math.random()` and its distribution. Each channel draw is the fraction `num/den` given to `ChannelOf`. The round initialiser takes the formatted channels as a stream of triples.
- The order the random-comparator sort produces at src/App.jsx:31. It is a permutation chosen by the caller. Only "is a permutation" is stated.
- Game.ColorGame.StartNewGame: requires draws holding six distinct triples. The source keeps drawing until it has them, which a finite stream cannot express. `Round.BuildOptions` itself states the outcome for every stream.
- The 1500 ms delay of `setTimeout` at src/App.jsx:43. The model counts pending restarts. It does not model when they fire relative to clicks; any order is allowed.
- The `useEffect` mount hook at src/App.jsx:50-52. It appears only as the first restart in `Game.SessionRounds`.
- Game.Selected: the score is an unbounded integer. In the source it is a JavaScript number, where `prev + 1` at src/App.jsx:41 no longer grows once the score reaches 2^53; `Game.Selected` and `Game.RunScore` do not model that ceiling, which no player can reach.
- React's setter batching and functional updates. Each handler is one atomic update of the fields.
