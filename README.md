# blackjack-rs in Dafny

A Dafny model of the game core of blackjack-rs, a blackjack game written in Rust. The model has three parts.

- **Cards and decks.** Ranks, suits and their integer codes. A deck is built as a run of 13 ranks per suit and then shuffled. Drawing pops the last card of the deck and refills an empty deck with a fresh single deck.
- **The server table.** The server keeps a registry of clients (`Vec<Client>`) and one dealer. Its handlers do these jobs:
  - register and unregister clients, and attach each client's socket channel;
  - publish triggers to the connected clients;
  - start a round by dealing the dealer two cards;
  - record a bet, and draw cards into a player's hand;
  - at the end of a turn, hand the turn to the next seat. After the last seat, the dealer plays and every client is settled.
- **The client's local game.** A four-deck shoe, one human player and a dealer. Each round is dealt, played (Hit, Stand, Double) and settled in place.

The model scores the hands of both programs with the client's `get_hand_value`. The server imports its scoring from a file that does not define it in this version (see "## Left out"). Each card counts its face value, and an Ace counts 11. Ten is taken off once when the sum exceeds 21 and the hand holds an Ace. The dealer draws while the hand is below 17.

A round resolves in a fixed order:

1. A push if both the player and the dealer are bust, or if their values are equal.
2. Otherwise a two-card 21 is a blackjack.
3. Otherwise the player wins if the dealer is bust, or if the player is not bust and has the higher value.
4. Otherwise the player loses.

A win pays the bet, a blackjack pays three times the bet, and a loss takes the bet.

## How the model is built

- Module layout:
  - `Cards`, `Hand`, `Rules` and `Deck`/`ServerCard` hold the code shared by the client and the server: the card codes, scoring, resolution and payout, and deck drawing.
  - `Registry` states each update the handlers make to `Vec<Client>` as a function on a sequence of clients.
  - `Server` states each handler as a transition of a `ServerState` value: the registry, the dealer, every message handed to a channel, and how many decks have been shuffled.
  - `Tables.Table` is a class whose fields are that state. Each method performs one handler in place and is proved to produce exactly the matching `Server` transition.
  - `ServerLaws` holds the properties of those transitions.
  - `LocalGame` states the client's round as functions on a `LocalState`. Its class `Game` performs each step on its fields, with loops that mirror the source.
- Two pairs of files hold the same code, and each pair is modelled once:
  - the client's `Rank::from_int`, `Suit::from_int` and `get_value` and the server's `rank_from_int`, `suit_from_int` and `get_rank_value`;
  - the `Start` and `EndTurn` arms of `handle_client_msg` and `start_turn` and `end_turn`.
- Randomness is a parameter. A `Shuffler` function gives the i-th single deck the program creates. `ValidShuffler` says each of those decks is a permutation of one standard deck. Every state records how many decks have been used, so each draw is determined by the state and the shuffler. The client's first four-deck shoe is a parameter checked with `IsShuffleOf(shoe, 4)`.
- Chips and bets are `u32`, with the checked arithmetic of a debug build. An overflow or underflow is a panic, modelled as `None`, or as a `panicked` flag that ends the handler or round where it happened. The same holds for an `unwrap` on a missing client and for indexing an empty dealer hand.

Observations the lemmas make explicit:

- Ten is taken off at most once. Three Aces score 23 (`Hand.AcesDiscountedOnce`), so a dealer can stand on 27 (`Hand.DealerCanReachTwentySeven`).
- A blackjack against a dealer 21 is a push (`Rules.BlackjackAgainstTwentyOnePushes`).
- `end_turn` writes the submitted player only into the caller's own `Client` copy, never into the registry. Settlement uses the registry's hands, which only the draw handlers fill and settlement empties (`Server.EndTurn` returns that copy separately).
- Positions are never renumbered. After a departure, a newcomer can share a position with a client already seated (`Registry.RejoinSharesPosition`), so turn hand-off looks up whichever client is first at the next position. A departure in the middle leaves a gap, and the round is settled when the turn reaches it, before the seats beyond have played (`ServerLaws.GapEndsRound`).

## Model

| member | source | states |
|---|---|---|
| Cards.RankValue | client/src/card.rs:76-92 | A rank's value is 2 to 11; it is 11 exactly for the Ace and 10 exactly for Ten, Jack, Queen and King |
| Cards.RankIndex | client/src/card.rs:58-74 | Every rank has a code below 13 that `from_int` maps back to it |
| Cards.SuitIndex | client/src/card.rs:15-22 | Every suit has a code below 4 that `from_int` maps back to it |
| Cards.RankFromIntPeriodic | shared/src/helpers.rs:3-19 | The rank of a code depends only on the code modulo 13 |
| Cards.SuitFromIntPeriodic | shared/src/helpers.rs:39-46 | The suit of a code depends only on the code modulo 4 |
| Cards.RankFromIntBijective | client/src/card.rs:58-74 | On codes 0 to 12, `from_int` and the rank code are inverse: each rank has exactly one code |
| Cards.SuitFromIntBijective | client/src/card.rs:15-22 | On codes 0 to 3, `from_int` and the suit code are inverse: each suit has exactly one code |
| Cards.PipValues | shared/src/helpers.rs:21-37 | Codes 0 to 8 are the pip cards: the value of code r is r + 2 |
| Deck.SuitRun | client/src/card.rs:165-169 | One suit's run of the deck builder holds 13 cards |
| Deck.OneDeck | server/src/card.rs:28-37 | One unshuffled deck holds 52 cards |
| Deck.OrderedDeck | client/src/card.rs:163-172 | k unshuffled decks hold 52·k cards |
| Deck.OneDeckAt | server/src/card.rs:30-34 | Card i of the unshuffled deck has suit code i / 13 and rank code i % 13 |
| Deck.OneDeckHas | server/src/card.rs:28-37 | Every card sits in the unshuffled deck at 13·suit code + rank code |
| Deck.OneDeckDistinct | server/src/card.rs:28-37 | The unshuffled deck has no card twice |
| Deck.OneDeckCount | server/src/card.rs:28-37 | Every card occurs exactly once in one deck |
| Deck.OrderedDeckCount | client/src/card.rs:162-172 | Every card occurs exactly k times in k decks |
| Deck.ShuffleContents | client/src/card.rs:174 | A shuffle of k decks has 52·k cards and every card exactly k times |
| Deck.ShuffledDeckDistinct | server/src/card.rs:39 | A shuffled single deck has no card twice |
| Deck.ValidShufflerFull | server/src/card.rs:27-41 | A shuffler yielding permutations of one deck always yields 52 cards |
| Deck.Deal | client/src/card.rs:144-160 | Drawing n cards yields exactly n cards |
| Deck.DealOne | client/src/card.rs:148-157 | Drawing one card is one pop, with a refill from a fresh deck when the deck is empty |
| Deck.DealFromStock | client/src/card.rs:149-150 | From a deck of at least n cards, the n cards drawn are its last n, last first; the rest of the deck is kept and no deck is shuffled |
| Deck.DealRefill | client/src/card.rs:151-155 | From an empty deck, up to 52 cards come from the end of the next fresh deck, which stays in use minus those cards |
| Deck.DealExhaust | client/src/card.rs:148-158 | A draw of more cards than the deck holds takes the whole deck, last card first, then continues exactly as a draw from an empty deck |
| Deck.DrawCards | client/src/card.rs:144-160 | The draw loop produces the cards, the remaining deck and the shuffle count of the drawing relation `Deal` |
| ServerCard.DrawCards | server/src/card.rs:6-25 | The server's draw creates its own fresh deck and produces exactly n cards of that deck and the decks after it |
| ServerCard.FreshDrawDistinct | server/src/card.rs:9 | Up to 52 cards drawn from a fresh deck are all different |
| ServerCard.FreshDrawRefill | server/src/card.rs:16-20 | Drawing 53 to 104 cards empties the fresh deck, last card first, then draws from a second fresh deck |
| Hand.GetHandValue | client/src/game.rs:160-176 | The loop-and-sum computation gives the hand's score; the score is the face sum exactly when that sum is at most 21 or there is no Ace, and otherwise 10 less |
| Hand.FaceSumConcat | client/src/game.rs:163-167 | The face sum of two hands put together is the sum of their face sums |
| Hand.FaceSumBounds | client/src/game.rs:163-167 | A hand's face sum lies between 2 and 11 per card |
| Hand.HasAceConcat | client/src/game.rs:169 | Two hands put together hold an Ace exactly when one of them does |
| Hand.FaceSumGrows | client/src/game.rs:163-167 | A drawn card adds its rank value, at least 2, to the face sum |
| Hand.ScoreCanDrop | client/src/game.rs:169-173 | Drawing can lower a score: Ace-Nine is 20, and with a Five it is 15 |
| Hand.AcesDiscountedOnce | client/src/game.rs:169-173 | Ten is taken off once only: two Aces score 12, three Aces score 23 |
| Hand.EmptyHandScoresZero | client/src/game.rs:160-176 | An empty hand scores 0 and holds no Ace |
| Hand.BelowSeventeenBound | client/src/game.rs:153 | A hand scoring below 17 has a face sum of at most 26, so the dealer's loop ends |
| Hand.DealerStandsAtSeventeen | server/src/game.rs:135 | A dealer already at 17 or more draws nothing |
| Hand.DealerStoodUnique | server/src/game.rs:135-139 | The dealer's stopping point is unique: two final hands, one extending the other, are equal |
| Hand.DealerStoodStep | server/src/game.rs:135-139 | Below 17, stopping after drawing a card is stopping from the hand before it |
| Hand.DealerCanReachTwentySeven | client/src/game.rs:153-157 | Ace-Five-King (16) drawing an Ace stands on a score of 27 |
| Rules.CalculateEndStateIsOutcome | server/src/game.rs:144-157 | The ordered checks agree with an independent rule: equal standings (all bust values equal) push, then a blackjack, then the higher standing wins |
| Rules.EndStateCases | server/src/game.rs:148-156 | Each end state holds exactly under its own condition on the two values and the blackjack flag |
| Rules.BlackjackAgainstTwentyOnePushes | server/src/game.rs:148-151 | A blackjack against a dealer worth 21 is a push |
| Rules.BlackjackNeverLoses | server/src/game.rs:148-151 | A blackjack against any other dealer value is a blackjack |
| Rules.BustLoses | server/src/game.rs:152-155 | A bust player against a dealer who is not bust loses |
| Rules.BlackjackHand | server/src/game.rs:159-161 | With a fresh value, a blackjack is exactly two cards, an Ace and a ten-valued card |
| Rules.HandleEndState | server/src/game.rs:163-176 | The payout succeeds exactly when chips + factor·bet (factor 1, -1, 3 or 0) is a `u32`, and then only the chips change, to that total |
| Rules.HandleEndStatePanics | server/src/game.rs:168-174 | A push never panics and changes nothing; a loss panics exactly when the bet exceeds the chips |
| Rules.SafeStakePays | server/src/game.rs:163-176 | A covered bet whose triple fits never panics, whatever the outcome |
| Rules.LossThenWinRestores | server/src/game.rs:165-170 | Losing and then winning the same covered bet gives back the original player |
| Rules.FirstWithChips | client/src/game.rs:26 | The search finds a player exactly when someone has chips, and it finds the first one |
| Registry.FindByIdSpec | server/src/handlers.rs:70 | Looking up an id succeeds exactly when it is registered, and finds its first client |
| Registry.FindByPositionSpec | server/src/game.rs:63-66 | Looking up a position succeeds exactly when some client holds it, and finds the first |
| Registry.RegisterSpec | server/src/handlers.rs:41-56 | Registering keeps every client and appends one with no channel, an empty hand, 500 chips and no bet, at position equal to the old count |
| Registry.RegisterKeepsDense | server/src/handlers.rs:42 | While nobody has left, registering keeps client i at position i |
| Registry.RegisterKeepsUnique | server/src/handlers.rs:29-33 | Registering a new id keeps ids unique |
| Registry.RetainConcat | server/src/handlers.rs:59 | Removing an id from two parts is removing it from each |
| Registry.RetainMembers | server/src/handlers.rs:59 | After removing an id, the clients left are exactly the old clients with another id |
| Registry.RetainAbsent | server/src/handlers.rs:59 | Removing an unregistered id changes nothing |
| Registry.RetainIdempotent | server/src/handlers.rs:120 | Removing an id twice (unregister, then disconnect) is removing it once |
| Registry.RetainOrder | server/src/handlers.rs:59 | Removal keeps the remaining clients in their order |
| Registry.RetainSnoc | server/src/handlers.rs:59 | `retain` is an in-order filter: each client is kept, after the ones before it, exactly when its id differs |
| Registry.RegisterThenRetain | server/src/handlers.rs:58-61 | Removing a freshly registered id restores the registry |
| Registry.RetainKeepsUnique | server/src/handlers.rs:59 | Removal keeps ids unique |
| Registry.RejoinSharesPosition | server/src/game.rs:65-66 | After the first of two leaves, a newcomer gets the position of the one left |
| Registry.AttachSpec | server/src/handlers.rs:91-96 | Attaching changes only the channel of the first client with the id, which then holds the new channel |
| Registry.AttachAdmits | server/src/handlers.rs:147-150 | Once attached, a registered client's channel receives every unfiltered publish |
| Registry.SetBetSpec | server/src/game.rs:28-32 | The bet is recorded exactly when the id is registered, only on its first client |
| Registry.SetBetTwice | server/src/handlers.rs:203-208 | Betting twice keeps only the second amount |
| Registry.SameIdsSameFind | server/src/handlers.rs:101-107 | The id lookup sees only ids, so the snapshot after attaching is the same client |
| Registry.DrawIntoSpec | server/src/game.rs:34-41 | Drawing into a client succeeds exactly when the id is registered; its hand grows by the cards and its value is refreshed, nothing else changes |
| Registry.DrawIntoTwice | server/src/handlers.rs:296-302 | Two draws into one client are one draw of both batches |
| Registry.FanoutConcat | server/src/handlers.rs:140-151 | Publishing to two parts of the registry produces their messages in order |
| Registry.FanoutMembers | server/src/handlers.rs:140-151 | A message is published exactly to each client that has a channel and is not the filtered id |
| Registry.FanoutLength | server/src/handlers.rs:140-151 | A publish sends one message per admitted client |
| Registry.FanoutSameChannels | server/src/handlers.rs:140-151 | Who receives a publish depends only on ids and channels |
| Registry.AttachKeepsDistinctChannels | server/src/handlers.rs:79-96 | Attaching the channel a connection has just created keeps every client's channel its own |
| Registry.RegisterKeepsDistinctChannels | server/src/handlers.rs:41-56 | A newly registered client has no channel, so channels stay distinct |
| Registry.FanoutReaches | server/src/handlers.rs:140-151 | With distinct channels, a publish reaches each client's own channel exactly when that client has a channel and is not filtered out |
| Registry.SettleAll | server/src/game.rs:98-118 | Settlement keeps the number of clients |
| Registry.SettleAllShape | server/src/game.rs:98-118 | Settlement settles a prefix and leaves the rest untouched; it stops short exactly at a client whose payout panics |
| Registry.SettleAllPaid | server/src/game.rs:98-111 | Each settled client got its payout with hand emptied, and its result pairs it with its end state |
| Registry.SettleAllKeep | server/src/game.rs:114-117 | The game goes on exactly when some settled client has chips |
| Registry.SettleAllSpec | server/src/game.rs:89-118 | The settlement loop in full: prefix settled in order, the rest untouched, the panic point, the results and the continue flag |
| Registry.SettleClientSpec | server/src/game.rs:101-106 | Settling one client succeeds exactly when its payout fits a `u32`; it then gets the new chips and an empty hand worth 0, nothing else changes |
| Registry.SafeStakesPayable | server/src/game.rs:163-176 | Covered bets whose triple fits a `u32` can always be paid |
| Registry.UncoveredWinIsPayable | server/src/game.rs:28-32 | A bet above the chips, which `bet` accepts unchecked, is still paid when it wins and the total fits |
| Registry.SettleAllComplete | server/src/game.rs:98-118 | When every client can be paid, settlement does not panic and reports every client |
| Registry.SettleAllPays | server/src/handlers.rs:248-268 | When every payout fits a `u32`, every client is paid its end state's payout in registry order, hands emptied, and the game goes on exactly when someone has chips |
| Registry.SettleAllKeepsChannels | server/src/game.rs:98-118 | Settlement keeps each client's id, channel and position |
| Registry.SettleAllAfterPanic | server/src/game.rs:98-118 | Once a panic happened, later clients stay untouched |
| Registry.SettleAllExtend | server/src/game.rs:98-118 | One more paid client appends its result and updates the continue flag |
| Registry.SettleAllStop | server/src/game.rs:98-118 | A client whose payout panics stops settlement there, leaving it and every later client untouched |
| Registry.SettleAllPanicAt | server/src/game.rs:98-118 | The step at a client whose payout panics keeps it and sets the panic flag |
| Registry.SettleAllKeepsFresh | server/src/game.rs:105-106 | Settlement keeps every cached hand value equal to its hand's score |
| Server.FreshDrawOne | server/src/game.rs:136 | Drawing one card takes the top card of a fresh deck and uses that deck up |
| Server.DealerDrawsStood | server/src/game.rs:130-142 | The dealer's turn stops at the first hand worth 17 or more, extending the old hand |
| Server.DealerDrawsTop | server/src/game.rs:135-139 | Each card the dealer draws is the top card of a fresh deck, one deck per card |
| Server.DealerDrawsStep | server/src/game.rs:135-139 | Below 17 the dealer draws the next fresh deck's top card and goes on |
| Server.InitialFresh | server/src/main.rs:22-30 | The initial table keeps every cached hand value fresh |
| Server.RegisterKeepsFresh | server/src/handlers.rs:41-56 | Registering keeps cached hand values fresh |
| Server.UnregisterKeepsFresh | server/src/handlers.rs:58-61 | Unregistering keeps cached hand values fresh |
| Server.ConnectKeepsFresh | server/src/handlers.rs:91-96 | Attaching a channel keeps cached hand values fresh |
| Server.StartRoundKeepsFresh | server/src/game.rs:10-16 | Dealing the dealer keeps cached hand values fresh |
| Server.PlaceBetKeepsFresh | server/src/game.rs:28-32 | A bet keeps cached hand values fresh |
| Server.DrawForKeepsFresh | server/src/game.rs:34-41 | Drawing into a hand keeps cached hand values fresh |
| Server.TakeDealersTurnKeepsFresh | server/src/game.rs:130-139 | The dealer's turn keeps cached hand values fresh |
| ServerLaws.RegisterHost | server/src/handlers.rs:23-39 | The registrant is host exactly when the registry was empty; the new id is accepted and nothing else changes |
| ServerLaws.RegisterThenUnregister | server/src/handlers.rs:58-61 | Unregistering a freshly registered id restores the table |
| ServerLaws.UnregisterRefuses | server/src/handlers.rs:58-75 | After unregistering, the id's socket is refused and every other id is accepted exactly as before |
| ServerLaws.ConnectSpec | server/src/handlers.rs:77-107 | A connection succeeds exactly for a registered id; the snapshot is its first client with the new channel, others are unchanged, and every later publish reaches the channel |
| ServerLaws.PublishSpec | server/src/handlers.rs:131-155 | A publish keeps all earlier messages, appends one per admitted client and changes nothing else |
| ServerLaws.StartRoundSpec | server/src/game.rs:10-25 | The dealer gets the top two cards of a fresh deck, two different cards, with a fresh value; the trigger names the caller and the first card; nothing else changes |
| ServerLaws.BetSpec | server/src/handlers.rs:203-208 | A bet panics exactly on an unknown id and then changes nothing; otherwise only that client's bet changes |
| ServerLaws.DrawForSpec | server/src/game.rs:34-49 | A draw succeeds exactly for a registered id; the hand grows by the n announced cards, taken from the top of a fresh deck, and nothing else changes |
| ServerLaws.HitIsDrawOne | server/src/handlers.rs:287-292 | Hit is handled exactly like a draw of one card |
| ServerLaws.IgnoredMessages | server/src/handlers.rs:164-183 | Non-text frames, pings, undecodable text and callers without a channel change nothing |
| ServerLaws.EndTurnHandsOn | server/src/game.rs:60-78 | When a client holds the position after the caller's, dense or not, ending a turn names the first such client, with the dealer's first card, and changes nothing |
| ServerLaws.NextPositionIsNextIndex | server/src/game.rs:63-66 | While positions are dense, the client after the caller's position is the next one in the registry |
| ServerLaws.LastPositionHasNoSuccessor | server/src/game.rs:63-66 | While positions are dense, no client holds the position after the last seat |
| ServerLaws.EndTurnSettlesRound | server/src/game.rs:79-127 | When no client holds the position after the caller's and every payout fits a `u32`, the dealer stands at 17 or more; every client is paid its end state, hands emptied; results list the dealer and each client in order; the game goes on exactly when someone has chips |
| ServerLaws.EndTurnBeforeStartPanics | server/src/handlers.rs:218-225 | When a client holds the position after the caller's, handing on a turn before any round was dealt panics and changes nothing |
| ServerLaws.RoundEndMessages | server/src/handlers.rs:272-284 | When no client holds the position after the caller's and every payout fits, the settled round is announced to every connected client, followed by the game's end exactly when nobody has chips |
| ServerLaws.PublishKeepsFresh | server/src/handlers.rs:131-155 | Publishing keeps cached hand values fresh |
| ServerLaws.EndTurnKeepsFresh | server/src/game.rs:54-128 | Ending a turn keeps cached hand values fresh, panic or not |
| ServerLaws.HandleClientMsgKeepsFresh | server/src/handlers.rs:157-294 | Every message keeps every cached hand value, the dealer's included, equal to its hand's score |
| ServerLaws.EndTurnKeepsSeats | server/src/game.rs:98-118 | Ending a turn keeps every client's id and position |
| ServerLaws.HandleClientMsgKeepsSeats | server/src/handlers.rs:157-294 | No message adds, removes or reseats a client |
| ServerLaws.SameSeatsKeepDense | server/src/game.rs:63-66 | Keeping seats keeps positions dense, so turns are handed on in seat order across rounds |
| ServerLaws.ThreeJoinSpec | server/src/handlers.rs:23-56 | Three registrations seat three clients at positions 0, 1 and 2, and only the first is host |
| ServerLaws.ThreePlayerRound | server/src/handlers.rs:185-285 | For three seated clients, after a start the turn passes from the first to the second to the third, and the third's end settles all with four results and goes on |
| ServerLaws.ThreeSeatsEndTurns | server/src/handlers.rs:209-285 | With a dealt dealer, the three turn ends name the second client, then the third, then settle the round |
| ServerLaws.EndTurnSettled | server/src/handlers.rs:229-268 | Three unbet clients with 500 chips settle with four results and the game goes on |
| ServerLaws.MiddleLeaves | server/src/handlers.rs:58-61 | When the middle of three seated clients leaves, the other two keep positions 0 and 2 |
| ServerLaws.GapEndsRound | server/src/game.rs:62-66 | On positions 0 and 2, the first client's end of turn finds nobody at position 1 and settles the round with three results, so the client at position 2 never plays |
| Tables.Table.constructor | server/src/main.rs:22-30 | The table starts with no clients, the initial dealer and no messages |
| Tables.Table.Register | server/src/handlers.rs:23-56 | Performs the registration transition and returns `is_host` |
| Tables.Table.Unregister | server/src/handlers.rs:58-61 | Performs the removal transition |
| Tables.Table.Connect | server/src/handlers.rs:88-107 | Attaches the channel and returns the snapshot, or changes nothing and fails when the id has gone |
| Tables.Table.Publish | server/src/handlers.rs:131-155 | The send loop appends the messages of the publish transition |
| Tables.Table.StartTurn | server/src/game.rs:10-25 | Performs the start transition and returns its trigger |
| Tables.Table.Bet | server/src/game.rs:28-32 | Performs the bet transition, or panics on an unknown id with nothing changed |
| Tables.Table.DrawCardsFor | server/src/game.rs:34-49 | Performs the draw transition and returns its trigger, or panics with nothing changed |
| Tables.Table.TakeDealersTurn | server/src/game.rs:130-142 | The draw loop produces the dealer's turn transition |
| Tables.Table.EndTurn | server/src/game.rs:54-128 | Produces the end-of-turn transition: the state, the caller's copy, the trigger and the continue flag |
| Tables.Table.SettleClients | server/src/game.rs:89-118 | The settlement loop produces the settled registry, results, continue flag and panic of `SettleAll`, changing nothing else |
| Tables.Table.DrawCardsAndPublish | server/src/handlers.rs:296-314 | Draws and publishes the cards, or panics with nothing changed |
| Tables.Table.HandleClientMsg | server/src/handlers.rs:157-294 | Performs the message transition, keeping cached values fresh |
| LocalGame.NewGameSpec | client/src/game.rs:4-23 | From a shuffled four-deck shoe, the dealer gets its last two cards, the player the two before, with 500 chips; so the game loop starts |
| LocalGame.NewGameFromStock | client/src/game.rs:7-21 | The opening deals from any shoe of four or more cards |
| LocalGame.DealHands | client/src/game.rs:36-40 | The dealing loop keeps the number of players |
| LocalGame.DealHandsSeats | client/src/game.rs:36-40 | Seats already dealt are unchanged; each later seat takes its bet and a two-card hand, nothing else |
| LocalGame.DealHandsStockLeft | client/src/game.rs:39 | With enough cards, dealing uses up two cards per remaining seat and shuffles no deck |
| LocalGame.DealHandsSeat | client/src/game.rs:36-40 | Seat i gets the two cards 2·(i-n) from the end of the shoe |
| LocalGame.DealHandsFromStock | client/src/game.rs:36-40 | Players take two cards each from the end of the shoe in seat order |
| LocalGame.Refresh | client/src/game.rs:44-49 | Every player's value becomes its hand's score, nothing else changes |
| LocalGame.OpeningFromStock | client/src/game.rs:35-49 | Players take two cards each in seat order, the dealer the next two; each player keeps its chips and holds its bet, its hand and a fresh value |
| LocalGame.OpeningCoversStakes | client/src/player_input.rs:13 | Under the bet rule every dealt stake is below the chips |
| LocalGame.HitSpec | client/src/game.rs:66-71 | Hit adds exactly the top card, from a fresh deck when empty; the value is refreshed; the turn ends exactly on a bust |
| LocalGame.StandSpec | client/src/game.rs:72 | Stand ends the turn, drawing nothing |
| LocalGame.DoubleSpec | client/src/game.rs:73-85 | Double panics exactly when twice the bet overflows; it is refused with nothing changed when twice the bet exceeds the chips; otherwise it draws one card, doubles the bet and ends the turn |
| LocalGame.ActKeepsStake | client/src/game.rs:65-95 | An action keeps chips and identity, only adds cards, and keeps a covered bet covered |
| LocalGame.TurnEnds | client/src/game.rs:59-96 | A turn reads at most its input; it goes on only while the hand is at most 21; it ends after a Stand, a Double or a bust |
| LocalGame.TurnKeepsStake | client/src/game.rs:59-96 | A turn keeps chips and identity, only adds cards, and keeps a covered bet covered |
| LocalGame.StandFirst | client/src/game.rs:72 | A turn opening with Stand reads one action and changes no cards |
| LocalGame.AllTurns | client/src/game.rs:58-97 | Playing all turns keeps the number of players |
| LocalGame.AllTurnsKeepStakes | client/src/game.rs:58-97 | Playing keeps the dealer and all chips, and keeps covered bets covered |
| LocalGame.DealerDrawsStood | client/src/game.rs:149-158 | The dealer stops at the first hand worth 17 or more |
| LocalGame.DealerDrawsDeal | client/src/game.rs:153-157 | The dealer's new cards are exactly a draw from the shoe |
| LocalGame.DealerTurnSpec | client/src/game.rs:149-158 | The dealer ends at 17 or more with a fresh value, extending its hand; at 17 or more it draws nothing; players are untouched |
| LocalGame.SettlePlayersSpec | client/src/game.rs:109-134 | Settlement changes only chips; it panics exactly when some player cannot be paid; each player before the first such one gets its end state's payout |
| LocalGame.SettleSafeStakes | client/src/game.rs:140-147 | With safe stakes settlement never panics |
| LocalGame.SettlePlayersAt | client/src/game.rs:110-133 | A panic at player k leaves players before k paid and the rest untouched |
| LocalGame.RoundLossesCovered | client/src/game.rs:143 | Under the bet rule no loss underflows, so a round can panic only on an overflow |
| LocalGame.Game.constructor | client/src/game.rs:4-23 | The game starts in the state of the opening deals |
| LocalGame.Game.KeepPlaying | client/src/game.rs:25-30 | The game loop goes on exactly when some player has chips |
| LocalGame.Game.StartRound | client/src/game.rs:35-55 | Deals, scores and plays one round: the state and panic of the round after the opening |
| LocalGame.Game.DealPlayers | client/src/game.rs:36-40 | The dealing loop performs the dealing relation `DealHands` and leaves the dealer alone |
| LocalGame.Game.ScorePlayers | client/src/game.rs:44-49 | The scoring loop refreshes every player's value, nothing else |
| LocalGame.Game.PlayRound | client/src/game.rs:57-107 | Plays every turn, the dealer, then settles, as `Round` |
| LocalGame.Game.PlayTurn | client/src/game.rs:59-96 | The action loop performs the turn relation on seat i only |
| LocalGame.Game.TakeAction | client/src/game.rs:65-95 | Performs one action on seat i only |
| LocalGame.Game.TakeDealersTurn | client/src/game.rs:149-158 | The draw loop performs the dealer's turn relation |
| LocalGame.Game.CalculateEndState | client/src/game.rs:109-134 | The settlement loop performs the settlement relation, changing only players |

## Left out

- Asynchrony and locking are not modelled. Each handler runs as one atomic step on the table; interleavings of concurrent handlers, the `Arc<Mutex<…>>` wrappers and the lock drops are left out.
- HTTP and WebSocket routing (`warp`), the sender task and the socket stream loop are left out. A connection is `Connect` followed by one `HandleClientMsg` per frame. `Unregister` follows only when the frame stream ends or fails without a panic (server/src/handlers.rs:109-120). The per-message channel send is an envelope appended to `outbox`, and an error from `send` is ignored as in the code.
- JSON encoding and decoding (`serde_json`) is a `Decoder` parameter; a failed decode is `None`.
- UUID generation is a parameter: the id passed to `Register`. The registration URL in the response is left out.
- Terminal I/O is left out. The client's `println!` output, card display and `print_cards_in_hand` are not modelled. The `Display` implementations and `client/src/ui.rs` are not part of this model.
- The shuffle (`thread_rng` and `SliceRandom::shuffle`) is the `Shuffler` oracle. The client's first four-deck shoe is a parameter.
- `start_game`: the opening deals, the loop condition (`Game.KeepPlaying`) and one loop pass (`Game.StartRound`) are modelled. The unbounded repetition driven by standard input is not, because its inputs are not data.
- `bet` and `get_player_action` read standard input. Bets are a parameter satisfying the rule of client/src/player_input.rs:13 (a bet below the chips). Actions are a sequence per player. A turn whose input runs out stops there (`LocalGame.Turn`), whereas the program would wait for more input.
- Split is offered in the prompt but is not an action of `PlayerAction`; it is not modelled.
- The client's `Player` record has no user name. The model uses one `Player` type for both programs and leaves the client's name empty.
- The server's scoring is the `get_hand_value` imported from shared/src/player.rs. That version of the file carries no `get_hand_value`, so its definition is not part of this model; it is modelled by the client's `get_hand_value`, as `Hand.Score`.
- shared/src/web_socket.rs in this snapshot declares older message types than the ones the server's handlers use (`PublishTrigger::CardsDrawn`, `RoundFinished`, `RequestCommand::Bet`, …). The model follows the handlers' use of `Protocol.Trigger` and `Protocol.Command`.
- A panic is modelled as the end of the handler or round, with the changes made before it kept (`Server.Step` with `panicked` set). The effect on the connection's task is not modelled beyond that.
  - The task that awaited the handler ends. The removal at server/src/handlers.rs:120 then never runs.
  - The client keeps its registry entry: its seat, chips, bet and channel. The forwarding task spawned at server/src/handlers.rs:82 still owns the socket, so later publishes still reach the client, and its seat still takes part in hand-off and settlement.
  - The model allows this trace, because `Unregister` is applied only when a caller chooses to.
- Chips and bets follow a debug build, where `u32` arithmetic is checked. The wrap-around of a release build is not modelled: `chips -= current_bet` and `current_bet * 3` in server/src/game.rs:163-176 and client/src/game.rs:140-147, and `current_bet * 2` in client/src/game.rs:74.
