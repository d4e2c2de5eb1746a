# Memory-matching card game: deck, shuffle and flip/match state machine

This project models the game logic of `script.js`, a browser pair-finding card
game, and proves properties of the model.

- **Deck** (`deck.dfy`, module `Deck`). It holds the two-theme catalogue
  (`anime`, `tools`) with eight back images each. Each image is pushed twice
  onto `allBackImages` by `BuildPairs`. The list is then shuffled in place by
  the Fisher–Yates loop `Shuffle`, which walks an array from the last index
  down to 1 and swaps entry `i` with entry `j = floor(r * (i + 1))`.
  `Math.random()` is replaced by a sequence of draws `r` in [0, 1); draw `i`
  is the one the step for index `i` consumes, and draw 0 is unused. `Pick` is the index
  computation. It is proved to give `0 <= j <= i`. `ShuffleFrom` and
  `Shuffled` specify the loop. The lemmas prove three things:
  - the shuffle is a permutation;
  - it can produce an order other than its input;
  - a theme's deck has 16 entries, each back image of the theme exactly twice.
- **Board** (`board.dfy`, module `Board`). The page's globals `firstCard`,
  `secondCard`, `lockBoard`, `allBackImages` and the selected theme are
  fields of class `Game`. The card container's children are a `seq<Card>`
  field. Each `Card` object has a constant `back` (its `data-back`
  attribute), a `flipped` flag (the CSS class) and an `enabled` flag (its
  click listener is still attached). Cards are objects, so a selection
  refers to a card element, not a board position. Played sound cues are
  appended to `cues`. `SelectTheme` is the theme selector's change handler.
  `GenerateCards`, `FlipCard`, `CheckForMatch`,
  `DisableCards`, `ResetBoard`, `PlaySound` and `FlipCards` follow the
  script's functions of the same names. `ResolveMismatch` is the body of the
  1000 ms timer that `unflipCards` schedules. `Valid()` is the invariant
  every method keeps:
  - the displayed cards are distinct;
  - a second card is only selected after a different first card;
  - the board is locked exactly while a pair is selected.
- **Scenarios** (`scenarios.dfy`). Two client methods play a matching round
  and a non-matching round using only the board's contracts.

Behaviour of the code that the model keeps as written:
- The fail cue is played as soon as the mismatch is detected. Only the
  unflip and the unlock wait for the timer.
- `generateCards` does not touch the selection or the lock. A card picked
  before the board is regenerated stays selected, although it is no longer
  displayed. `GenerateCards` changes only `allBackImages` and `cards`.
- `flipCards('show-front')` also turns matched cards face down. They keep
  no click listener.

## Model

| member | source | states |
|---|---|---|
| `Deck.ThemeBacksDistinct` | script.js:12-27 | each theme has 8 back images, pairwise different |
| `Deck.Doubled` | script.js:54-58 | pushing every image twice gives a list of length 2n |
| `Deck.BuildPairs` | script.js:54-58 | the push loop over an emptied list yields exactly `Doubled(backs)` |
| `Deck.DoubledAt` | script.js:55-58 | entries 2k and 2k+1 of the pushed list are both the k-th back image |
| `Deck.DoubledMultiset` | script.js:55-58 | the pushed list holds each image exactly twice as often as the image list |
| `Deck.Pick` | script.js:35 | `floor(r * (i + 1))` for a draw 0 <= r < 1 is an index j with 0 <= j <= i |
| `Deck.SwapPermutes` | script.js:36 | the destructuring swap keeps the length and the multiset of entries |
| `Deck.ShufflePermutes` | script.js:33-39 | every suffix of the loop's steps is a permutation: same length, same multiset |
| `Deck.Shuffle` | script.js:33-39 | the in-place loop leaves the array equal to `Shuffled` of its old contents, a permutation of them |
| `Deck.ShuffleFromFixed` | script.js:34-36 | steps whose draw picks j == i leave the list unchanged |
| `Deck.ShuffleCanReorder` | script.js:33-39 | for any list whose first and last entries differ, some valid draws make the shuffle return a different order |
| `Deck.ThemeDeckCanReorder` | script.js:54-59 | for either theme, some valid draws deal the deck in an order different from the order it was built in |
| `Deck.PairedDeckCounts` | script.js:54-59 | from n distinct back images the shuffled deck has length 2n, each image exactly twice and nothing else |
| `Deck.BuildDeck` | script.js:54-59 | the theme's deck is the shuffled doubled image list, has 16 entries and each theme image exactly twice |
| `Deck.ThemeDeck` | script.js:54-65 | with either theme the deck has exactly the 16 entries the card loop reads, each back image twice |
| `Board.Card.constructor` | script.js:66-78 | a new card shows the given back image, is not flipped and has its click listener |
| `Board.Game.constructor` | script.js:3-5 | the initial session: given theme, no cards, no selection, board unlocked, no cues |
| `Board.Game.GenerateCards` | script.js:42-81 | 16 fresh, distinct, unflipped, enabled cards; card i shows entry i of the shuffled doubled theme list; selection, lock and cues untouched (frame) |
| `Board.Game.SelectTheme` | script.js:165-168 | the theme becomes the chosen one and the cards are regenerated for it: 16 fresh, unflipped, enabled cards showing the shuffled doubled list of the new theme; selection, lock and cues untouched (frame) |
| `Board.Game.FlipCard` | script.js:89-104 | ignored when the card has no listener, the board is locked or the card is the first card; else the card is flipped and becomes the first card (board unlocked), or the second card, and then a match disables both, plays `Match`, clears the selection and unlocks, while a mismatch plays `Fail` and keeps both selected and the board locked; no other card changes (frame) |
| `Board.Game.CheckForMatch` | script.js:107-117 | equal `data-back`: both cards disabled, `Match` played, selection cleared, unlocked; otherwise `Fail` played and the locked selection kept; flips untouched |
| `Board.Game.DisableCards` | script.js:129-133 | both selected cards lose their click listener; selection cleared and board unlocked |
| `Board.Game.ResolveMismatch` | script.js:136-142 | the delayed step turns exactly the two selected cards face down, clears the selection and unlocks |
| `Board.Game.ResetBoard` | script.js:145-148 | no first card, no second card, board unlocked |
| `Board.Game.PlaySound` | script.js:120-126 | the cue is appended to the cues played so far |
| `Board.Game.FlipCards` | script.js:151-162 | final state: `show-back` leaves every card flipped, `show-front` every card unflipped, any other action changes nothing; listeners, selection and lock untouched, `Valid()` kept |
| `Scenarios.MatchRound` | script.js:107-133 | two clicks on a matching pair: `Match` played, both face up and disabled, board idle; repeated clicks on them change nothing |
| `Scenarios.MismatchRound` | script.js:107-142 | two clicks on a non-matching pair: `Fail` played, other clicks ignored while locked, and after the delayed step both are face down, still enabled, board idle |

## Left out

- DOM construction and rendering are not modelled. This covers the card HTML template, the front image, `createElement` and `appendChild` beyond the card list, and `showCardContainer`. It is presentation only.
- Audio playback is not modelled. `PlaySound` records the cue name. The script only ever calls `playSound` with `'match'` or `'fail'`, so the cue is a two-value datatype.
- Timers are replaced by explicit steps. The 1000 ms mismatch delay is the separate `ResolveMismatch` step. For the 200 ms stagger of `flipCards`, only the state after all timers have fired is modelled. Orders in which those timers interleave with clicks are not modelled.
- The start-game, show-front and show-back buttons and `window.onload` are not modelled as methods. The start-game handler calls `generateCards`, `showCardContainer` (rendering) and `flipCards('show-back')`, then schedules `flipCards('show-front')` after 10 s. The two show buttons call `flipCards`, and `window.onload` calls `generateCards`. Their effects are those of `GenerateCards` and `FlipCards` in that order. The display change and the timer are not modelled.
- `Math.random()` is a parameter: a sequence of real draws in [0, 1), as long as the list being shuffled. Draw `i` stands for the call made in the loop step for index `i`. Draw 0 is never consumed, because the loop stops before index 0. Reals are exact, so floating-point rounding of `Math.random() * (i + 1)` is not modelled. For indices this small it cannot reach `i + 1`.
- A theme name outside the catalogue cannot be expressed (`Theme` has two values). The script's failure on an unknown theme is therefore not modelled.
- Board.Game.FlipCard: clicks can only be made on displayed cards (`c in cards`), since a card removed from the container can no longer be clicked.
- Board.Game.ResolveMismatch: requires the board to be locked. Its timer is scheduled only by a mismatch, and the board stays locked until it fires.
