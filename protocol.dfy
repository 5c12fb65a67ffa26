/**
 * The records the server keeps and exchanges: a registered `Client`
 * (server/src/client.rs) and the request and publish messages as the
 * server's handlers use them.
 */
module Protocol {
  import opened Wrappers
  import opened Cards
  import opened Rules

  /** An attached outbound channel, identified by a number. */
  datatype Sender = Sender(channel: nat)

  /** A registered connection: its id, its outbound channel once attached, its turn position and its player. */
  datatype Client = Client(id: string, sender: Option<Sender>, position: nat, player: Player)

  /** One player's result at the end of a round. */
  datatype TurnResult = TurnResult(player: Player, endState: EndState)

  /** What a publish request carries to the clients. */
  datatype Trigger =
    | StartTurn(activeClientId: string, userName: string, dealerCard: Option<Card>)
    | CardsDrawn(cards: seq<Card>)
    | RoundFinished(results: seq<TurnResult>)
    | GameFinished

  type U16 = x: int | 0 <= x <= 0xFFFF

  /** The command of a request a client sends over its socket. */
  datatype Command = Start | Bet(amount: U32) | EndTurn(player: Player) | DrawCards(count: U16) | Hit

  /** A socket frame: text, or anything else (binary, ping, close). */
  datatype Frame = Text(text: string) | NonText

  /** What the JSON decoder makes of a text frame; `None` is a parse error. */
  type Decoder = string -> Option<Command>

  /** One message handed to a client's outbound channel. */
  datatype Envelope = Envelope(to: Sender, trigger: Trigger)
}
