/**
 * The client registry `Vec<Client>` and the updates the server's handlers
 * make to it (server/src/handlers.rs, server/src/game.rs), as functions on
 * the sequence of clients.
 */
module Registry {
  import opened Wrappers
  import opened Cards
  import opened Hand
  import opened Rules
  import opened Protocol

  /** `iter().find(|c| c.id == id)`. */
  function FindById(cs: seq<Client>, id: string): Option<nat>
  {
    Find(cs, (c: Client) => c.id == id)
  }

  /** `iter().find(|c| c.position == position)`. */
  function FindByPosition(cs: seq<Client>, position: nat): Option<nat>
  {
    Find(cs, (c: Client) => c.position == position)
  }

  predicate IsRegistered(cs: seq<Client>, id: string)
  {
    exists i :: 0 <= i < |cs| && cs[i].id == id
  }

  predicate UniqueIds(cs: seq<Client>)
  {
    forall i, j :: 0 <= i < j < |cs| ==> cs[i].id != cs[j].id
  }

  /** Client `i` sits at position `i`: true from the start until somebody leaves. */
  predicate DensePositions(cs: seq<Client>)
  {
    forall i :: 0 <= i < |cs| ==> cs[i].position == i
  }

  /** The client `register_client` appends: no channel yet, an empty hand, 500 chips and no bet. */
  function NewClient(id: string, userName: string, position: nat): Client
  {
    Client(id, None, position, Player(userName, Human, [], 0, 500, 0))
  }

  /** `register_client`: append a new client at position `|cs|`. */
  function Register(cs: seq<Client>, id: string, userName: string): seq<Client>
  {
    cs + [NewClient(id, userName, |cs|)]
  }

  /** `retain(|c| c.id != id)`. */
  function Retain(cs: seq<Client>, id: string): seq<Client>
  {
    if cs == [] then []
    else (if cs[0].id != id then [cs[0]] else []) + Retain(cs[1..], id)
  }

  /** The sender attach of `client_connection`: the first client with the id gets the channel. */
  function Attach(cs: seq<Client>, id: string, s: Sender): seq<Client>
  {
    match FindById(cs, id)
    case None => cs
    case Some(i) => cs[i := cs[i].(sender := Some(s))]
  }

  /** `bet`: set the bet of the first client with the id; `None` is the panic of `unwrap` on an unknown id. */
  function SetBet(cs: seq<Client>, id: string, amount: U32): Option<seq<Client>>
  {
    match FindById(cs, id)
    case None => None
    case Some(i) => Some(cs[i := cs[i].(player := cs[i].player.(currentBet := amount))])
  }

  /** The hand update of `draw_cards_for_publish`: extend the hand and recompute its value. */
  function GiveCards(p: Player, cards: seq<Card>): Player
  {
    p.(hand := p.hand + cards, handValue := Score(p.hand + cards))
  }

  /** `draw_cards_for_publish` on the registry; `None` is the panic of `unwrap` on an unknown id. */
  function DrawInto(cs: seq<Client>, id: string, cards: seq<Card>): Option<seq<Client>>
  {
    match FindById(cs, id)
    case None => None
    case Some(i) => Some(cs[i := cs[i].(player := GiveCards(cs[i].player, cards))])
  }

  /** Whether `publish` sends to a client: it has a channel and is not the filtered id. */
  predicate Admits(c: Client, filter: Option<string>)
  {
    c.sender.Some? && (filter.None? || c.id != filter.value)
  }

  /** The messages `publish` hands out, one per admitted client, in registry order. */
  function Fanout(cs: seq<Client>, t: Trigger, filter: Option<string>): seq<Envelope>
  {
    if cs == [] then []
    else
      var last := cs[|cs| - 1];
      Fanout(cs[..|cs| - 1], t, filter) + (if Admits(last, filter) then [Envelope(last.sender.value, t)] else [])
  }

  // ---- Lookups ----

  lemma FindByIdSpec(cs: seq<Client>, id: string)
    ensures FindById(cs, id).Some? <==> IsRegistered(cs, id)
    ensures FindById(cs, id).Some? ==>
      var i := FindById(cs, id).value;
      i < |cs| && cs[i].id == id && forall k :: 0 <= k < i ==> cs[k].id != id
  {
  }

  lemma FindByPositionSpec(cs: seq<Client>, position: nat)
    ensures FindByPosition(cs, position).Some? <==> exists i :: 0 <= i < |cs| && cs[i].position == position
    ensures FindByPosition(cs, position).Some? ==>
      var i := FindByPosition(cs, position).value;
      i < |cs| && cs[i].position == position && forall k :: 0 <= k < i ==> cs[k].position != position
  {
  }

  // ---- Registration ----

  /** Registering appends exactly one client with the initial record and keeps the others. */
  lemma RegisterSpec(cs: seq<Client>, id: string, userName: string)
    ensures var r := Register(cs, id, userName);
      && |r| == |cs| + 1
      && r[..|cs|] == cs
      && r[|cs|] == Client(id, None, |cs|, Player(userName, Human, [], 0, 500, 0))
  {
    assert Register(cs, id, userName)[..|cs|] == cs;
  }

  lemma RegisterKeepsDense(cs: seq<Client>, id: string, userName: string)
    requires DensePositions(cs)
    ensures DensePositions(Register(cs, id, userName))
  {
  }

  lemma RegisterKeepsUnique(cs: seq<Client>, id: string, userName: string)
    requires UniqueIds(cs) && !IsRegistered(cs, id)
    ensures UniqueIds(Register(cs, id, userName))
  {
    var r := Register(cs, id, userName);
    forall i, j | 0 <= i < j < |r| ensures r[i].id != r[j].id {
      if j == |cs| {
        assert r[i] == cs[i];
      } else {
        assert r[i] == cs[i] && r[j] == cs[j];
      }
    }
  }

  // ---- Removal ----

  lemma {:induction false} RetainConcat(a: seq<Client>, b: seq<Client>, id: string)
    ensures Retain(a + b, id) == Retain(a, id) + Retain(b, id)
  {
    if a == [] {
      assert a + b == b;
    } else {
      assert (a + b)[0] == a[0];
      assert (a + b)[1..] == a[1..] + b;
      RetainConcat(a[1..], b, id);
    }
  }

  /**
   * `retain` as a filter read left to right: each client is kept, in place
   * after the clients before it, exactly when its id differs.
   */
  lemma RetainSnoc(cs: seq<Client>, c: Client, id: string)
    ensures Retain(cs + [c], id) == Retain(cs, id) + (if c.id != id then [c] else [])
  {
    RetainConcat(cs, [c], id);
    assert Retain([c], id) == (if c.id != id then [c] else []) + Retain([], id);
  }

  /** Removal keeps exactly the clients with a different id, each unchanged (positions included). */
  lemma {:induction false} RetainMembers(cs: seq<Client>, id: string)
    ensures forall c :: c in Retain(cs, id) <==> c in cs && c.id != id
    ensures |Retain(cs, id)| <= |cs|
  {
    if cs != [] {
      RetainMembers(cs[1..], id);
      assert cs == [cs[0]] + cs[1..];
      forall c ensures c in Retain(cs, id) <==> c in cs && c.id != id {
        if c in cs && c != cs[0] {
          assert c in cs[1..];
        }
      }
    }
  }

  /** Removing an id nobody has changes nothing. */
  lemma {:induction false} RetainAbsent(cs: seq<Client>, id: string)
    requires !IsRegistered(cs, id)
    ensures Retain(cs, id) == cs
  {
    if cs != [] {
      assert !IsRegistered(cs[1..], id) by {
        forall i | 0 <= i < |cs| - 1 ensures cs[1..][i].id != id {
          assert cs[1..][i] == cs[i + 1];
        }
      }
      RetainAbsent(cs[1..], id);
      assert cs[0].id != id;
      assert cs == [cs[0]] + cs[1..];
    }
  }

  /** Removing twice is removing once. */
  lemma RetainIdempotent(cs: seq<Client>, id: string)
    ensures Retain(Retain(cs, id), id) == Retain(cs, id)
  {
    RetainMembers(cs, id);
    RetainAbsent(Retain(cs, id), id);
  }

  /** Removal keeps the relative order: a client before another stays before it. */
  lemma {:induction false} RetainOrder(cs: seq<Client>, id: string, i: nat, j: nat)
    requires i < j < |cs| && cs[i].id != id && cs[j].id != id
    ensures Retain(cs[..j + 1], id) == Retain(cs[..i], id) + [cs[i]] + Retain(cs[i + 1..j], id) + [cs[j]]
  {
    var pre, mid := cs[..i], cs[i + 1..j];
    assert cs[..j + 1] == pre + [cs[i]] + mid + [cs[j]];
    RetainConcat(pre + [cs[i]] + mid, [cs[j]], id);
    RetainConcat(pre + [cs[i]], mid, id);
    RetainConcat(pre, [cs[i]], id);
    assert Retain([cs[i]], id) == [cs[i]] by { assert [cs[i]][1..] == []; }
    assert Retain([cs[j]], id) == [cs[j]] by { assert [cs[j]][1..] == []; }
  }

  /** Registering a fresh id and removing it again restores the registry. */
  lemma RegisterThenRetain(cs: seq<Client>, id: string, userName: string)
    requires !IsRegistered(cs, id)
    ensures Retain(Register(cs, id, userName), id) == cs
  {
    RetainConcat(cs, [NewClient(id, userName, |cs|)], id);
    RetainAbsent(cs, id);
    assert [NewClient(id, userName, |cs|)][1..] == [];
  }

  lemma {:induction false} RetainKeepsUnique(cs: seq<Client>, id: string)
    requires UniqueIds(cs)
    ensures UniqueIds(Retain(cs, id))
  {
    if cs != [] {
      assert UniqueIds(cs[1..]) by {
        forall i, j | 0 <= i < j < |cs| - 1 ensures cs[1..][i].id != cs[1..][j].id {
          assert cs[1..][i] == cs[i + 1] && cs[1..][j] == cs[j + 1];
        }
      }
      RetainKeepsUnique(cs[1..], id);
      RetainMembers(cs[1..], id);
      var rest := Retain(cs[1..], id);
      forall k | 0 <= k < |rest| ensures rest[k].id != cs[0].id {
        assert rest[k] in cs[1..];
        var m :| 0 <= m < |cs[1..]| && cs[1..][m] == rest[k];
        assert cs[m + 1] == rest[k];
      }
    }
  }

  /**
   * Positions are never renumbered: once the client at position 0 of two
   * leaves, a newcomer takes position 1 as well.
   */
  lemma RejoinSharesPosition(a: Client, b: Client, id: string, userName: string)
    requires a.position == 0 && b.position == 1 && a.id != b.id
    ensures var r := Register(Retain([a, b], a.id), id, userName);
      |r| == 2 && r[0] == b && r[1].position == 1
  {
    assert [a, b][1..] == [b] && [b][1..] == [];
    assert Retain([b], a.id) == [b] + Retain([], a.id);
    assert Retain([a, b], a.id) == [b];
  }

  // ---- Attaching a channel ----

  /** Attaching changes only the `sender` of the first client with the id. */
  lemma AttachSpec(cs: seq<Client>, id: string, s: Sender)
    ensures var r := Attach(cs, id, s);
      && |r| == |cs|
      && (forall i :: 0 <= i < |cs| ==> r[i].id == cs[i].id && r[i].position == cs[i].position && r[i].player == cs[i].player)
      && (forall i :: 0 <= i < |cs| && Some(i) != FindById(cs, id) ==> r[i] == cs[i])
      && (IsRegistered(cs, id) ==> r[FindById(cs, id).value].sender == Some(s))
  {
    FindByIdSpec(cs, id);
  }

  /** Once attached, the client receives every unfiltered publish. */
  lemma AttachAdmits(cs: seq<Client>, id: string, s: Sender, t: Trigger)
    requires IsRegistered(cs, id)
    ensures Envelope(s, t) in Fanout(Attach(cs, id, s), t, None)
  {
    FindByIdSpec(cs, id);
    var i := FindById(cs, id).value;
    FanoutMembers(Attach(cs, id, s), t, None, Envelope(s, t));
    assert Attach(cs, id, s)[i].sender == Some(s);
  }

  /** Every connection creates its own channel, so no two clients hold the same one. */
  predicate DistinctChannels(cs: seq<Client>)
  {
    forall i, j :: 0 <= i < |cs| && 0 <= j < |cs| && i != j && cs[i].sender.Some? ==> cs[i].sender != cs[j].sender
  }

  /** A channel no client holds yet: the one a new connection creates. */
  predicate UnusedChannel(cs: seq<Client>, s: Sender)
  {
    forall i :: 0 <= i < |cs| ==> cs[i].sender != Some(s)
  }

  /** Attaching a newly created channel keeps channels distinct. */
  lemma AttachKeepsDistinctChannels(cs: seq<Client>, id: string, s: Sender)
    requires DistinctChannels(cs) && UnusedChannel(cs, s)
    ensures DistinctChannels(Attach(cs, id, s))
  {
    AttachSpec(cs, id, s);
  }

  /** A new client has no channel, so registering keeps channels distinct. */
  lemma RegisterKeepsDistinctChannels(cs: seq<Client>, id: string, userName: string)
    requires DistinctChannels(cs)
    ensures DistinctChannels(Register(cs, id, userName))
  {
  }

  /**
   * With distinct channels, a publish reaches each client's own channel
   * exactly when that client is admitted.
   */
  lemma FanoutReaches(cs: seq<Client>, t: Trigger, filter: Option<string>, i: nat)
    requires DistinctChannels(cs) && i < |cs| && cs[i].sender.Some?
    ensures Envelope(cs[i].sender.value, t) in Fanout(cs, t, filter) <==> Admits(cs[i], filter)
  {
    FanoutMembers(cs, t, filter, Envelope(cs[i].sender.value, t));
  }

  // ---- Bets and draws ----

  /** A bet sets only `current_bet` of the first matching client, and panics exactly on an unknown id. */
  lemma SetBetSpec(cs: seq<Client>, id: string, amount: U32)
    ensures SetBet(cs, id, amount).Some? <==> IsRegistered(cs, id)
    ensures SetBet(cs, id, amount).Some? ==>
      var r, i := SetBet(cs, id, amount).value, FindById(cs, id).value;
      && |r| == |cs|
      && r[i].player.currentBet == amount
      && r[i] == cs[i].(player := cs[i].player.(currentBet := amount))
      && forall k :: 0 <= k < |cs| && k != i ==> r[k] == cs[k]
  {
    FindByIdSpec(cs, id);
  }

  /** The last bet placed is the one that counts. */
  lemma SetBetTwice(cs: seq<Client>, id: string, a: U32, b: U32)
    requires IsRegistered(cs, id)
    ensures SetBet(cs, id, a).Some?
    ensures SetBet(SetBet(cs, id, a).value, id, b) == SetBet(cs, id, b)
  {
    FindByIdSpec(cs, id);
    var i := FindById(cs, id).value;
    var r := SetBet(cs, id, a).value;
    SameIdsSameFind(cs, r, id);
    assert SetBet(r, id, b).value == cs[i := cs[i].(player := cs[i].player.(currentBet := b))];
  }

  /** Lookup by id only looks at ids. */
  lemma SameIdsSameFind(a: seq<Client>, b: seq<Client>, id: string)
    requires |a| == |b| && forall i :: 0 <= i < |a| ==> a[i].id == b[i].id
    ensures FindById(a, id) == FindById(b, id)
  {
    FindByIdSpec(a, id);
    FindByIdSpec(b, id);
  }

  /** A draw appends exactly the drawn cards to the first matching client's hand and refreshes its value. */
  lemma DrawIntoSpec(cs: seq<Client>, id: string, cards: seq<Card>)
    ensures DrawInto(cs, id, cards).Some? <==> IsRegistered(cs, id)
    ensures DrawInto(cs, id, cards).Some? ==>
      var r, i := DrawInto(cs, id, cards).value, FindById(cs, id).value;
      && |r| == |cs|
      && r[i].player.hand == cs[i].player.hand + cards
      && r[i].player.handValue == Score(r[i].player.hand)
      && r[i] == cs[i].(player := cs[i].player.(hand := r[i].player.hand, handValue := r[i].player.handValue))
      && forall k :: 0 <= k < |cs| && k != i ==> r[k] == cs[k]
  {
    FindByIdSpec(cs, id);
  }

  /** Two draws in a row are one draw of both batches. */
  lemma DrawIntoTwice(cs: seq<Client>, id: string, a: seq<Card>, b: seq<Card>)
    requires IsRegistered(cs, id)
    ensures DrawInto(cs, id, a).Some?
    ensures DrawInto(DrawInto(cs, id, a).value, id, b) == DrawInto(cs, id, a + b)
  {
    FindByIdSpec(cs, id);
    var r := DrawInto(cs, id, a).value;
    SameIdsSameFind(cs, r, id);
    var i := FindById(cs, id).value;
    assert cs[i].player.hand + a + b == cs[i].player.hand + (a + b);
    assert DrawInto(r, id, b).value == cs[i := cs[i].(player := GiveCards(cs[i].player, a + b))];
  }

  // ---- Publishing ----

  lemma {:induction false} FanoutConcat(a: seq<Client>, b: seq<Client>, t: Trigger, filter: Option<string>)
    ensures Fanout(a + b, t, filter) == Fanout(a, t, filter) + Fanout(b, t, filter)
    decreases |b|
  {
    if b == [] {
      assert a + b == a;
    } else {
      var b' := b[..|b| - 1];
      assert (a + b)[..|a + b| - 1] == a + b';
      FanoutConcat(a, b', t, filter);
    }
  }

  /**
   * `publish` sends one message to each client with a channel whose id is
   * not the filter, and to no one else.
   */
  lemma {:induction false} FanoutMembers(cs: seq<Client>, t: Trigger, filter: Option<string>, e: Envelope)
    ensures e in Fanout(cs, t, filter) <==>
      e.trigger == t && exists i :: 0 <= i < |cs| && Admits(cs[i], filter) && cs[i].sender == Some(e.to)
  {
    if cs != [] {
      var init := cs[..|cs| - 1];
      FanoutMembers(init, t, filter, e);
      if exists i :: 0 <= i < |cs| && Admits(cs[i], filter) && cs[i].sender == Some(e.to) {
        var i :| 0 <= i < |cs| && Admits(cs[i], filter) && cs[i].sender == Some(e.to);
        if i < |cs| - 1 {
          assert init[i] == cs[i];
        }
      }
      if exists i :: 0 <= i < |init| && Admits(init[i], filter) && init[i].sender == Some(e.to) {
        var i :| 0 <= i < |init| && Admits(init[i], filter) && init[i].sender == Some(e.to);
        assert cs[i] == init[i];
      }
    }
  }

  /** One message per admitted client: the count of messages is the count of admitted clients. */
  function AdmittedCount(cs: seq<Client>, filter: Option<string>): nat
  {
    if cs == [] then 0 else AdmittedCount(cs[1..], filter) + (if Admits(cs[0], filter) then 1 else 0)
  }

  lemma {:induction false} FanoutLength(cs: seq<Client>, t: Trigger, filter: Option<string>)
    ensures |Fanout(cs, t, filter)| == AdmittedCount(cs, filter)
  {
    if cs != [] {
      FanoutLength(cs[1..], t, filter);
      assert cs == [cs[0]] + cs[1..];
      FanoutConcat([cs[0]], cs[1..], t, filter);
      assert [cs[0]][..0] == [];
    }
  }

  /** Whom `publish` reaches depends only on the ids and channels, not on the players. */
  lemma {:induction false} FanoutSameChannels(a: seq<Client>, b: seq<Client>, t: Trigger, filter: Option<string>)
    requires |a| == |b|
    requires forall i :: 0 <= i < |a| ==> a[i].id == b[i].id && a[i].sender == b[i].sender
    ensures Fanout(a, t, filter) == Fanout(b, t, filter)
  {
    if a != [] {
      FanoutSameChannels(a[..|a| - 1], b[..|b| - 1], t, filter);
    }
  }

  // ---- Round settlement ----

  /**
   * One iteration of the settlement loop of `end_turn`: resolve and pay out,
   * then empty the hand and zero its value. `None` is a panic in the payout.
   */
  function SettleClient(c: Client, dealerValue: nat): Option<Client>
  {
    match HandleEndState(c.player, CalculateEndState(c.player, dealerValue))
    case None => None
    case Some(p) => Some(c.(player := p.(hand := [], handValue := 0)))
  }

  /**
   * The registry after the settlement loop, the results it pushed, its
   * `continue_playing` flag, and whether it panicked; a panic stops the loop
   * at the failing client, the ones before it already settled.
   */
  datatype Settlement = Settlement(clients: seq<Client>, results: seq<TurnResult>, keepPlaying: bool, panicked: bool)

  function SettleAll(cs: seq<Client>, dealerValue: nat): (r: Settlement)
    ensures |r.clients| == |cs|
  {
    if cs == [] then Settlement([], [], false, false)
    else
      var s := SettleAll(cs[..|cs| - 1], dealerValue);
      var last := cs[|cs| - 1];
      if s.panicked then s.(clients := s.clients + [last])
      else
        match SettleClient(last, dealerValue)
        case None => s.(clients := s.clients + [last], panicked := true)
        case Some(c) =>
          Settlement(s.clients + [c],
                     s.results + [TurnResult(c.player, CalculateEndState(last.player, dealerValue))],
                     s.keepPlaying || c.player.chips > 0, false)
  }

  /**
   * The settlement loop settles a prefix of the registry, in order, and
   * leaves the rest untouched; it stops short only at a client whose payout
   * panics.
   */
  lemma {:induction false} SettleAllShape(cs: seq<Client>, dealerValue: nat)
    ensures var r := SettleAll(cs, dealerValue);
      && |r.results| <= |cs|
      && (r.panicked <==> |r.results| < |cs|)
      && (r.panicked ==> SettleClient(cs[|r.results|], dealerValue).None?)
      && r.clients[|r.results|..] == cs[|r.results|..]
  {
    if cs != [] {
      var init := cs[..|cs| - 1];
      SettleAllShape(init, dealerValue);
      var s := SettleAll(init, dealerValue);
      assert forall i :: 0 <= i < |init| ==> init[i] == cs[i];
      if s.panicked {
        assert SettleAll(cs, dealerValue).clients[|s.results|..] == s.clients[|s.results|..] + [cs[|cs| - 1]];
      }
    }
  }

  /** Each settled client is the payout of its registry entry, paired in the results with its end state. */
  lemma {:induction false} SettleAllPaid(cs: seq<Client>, dealerValue: nat)
    ensures var r := SettleAll(cs, dealerValue);
      forall i :: 0 <= i < |r.results| ==>
        && i < |cs|
        && SettleClient(cs[i], dealerValue) == Some(r.clients[i])
        && r.results[i] == TurnResult(r.clients[i].player, CalculateEndState(cs[i].player, dealerValue))
  {
    if cs != [] {
      var init := cs[..|cs| - 1];
      SettleAllPaid(init, dealerValue);
      SettleAllShape(init, dealerValue);
      var s := SettleAll(init, dealerValue);
      var r := SettleAll(cs, dealerValue);
      assert forall i :: 0 <= i < |init| ==> init[i] == cs[i];
      assert forall i :: 0 <= i < |s.clients| ==> r.clients[i] == s.clients[i];
    }
  }

  /** The `continue_playing` flag: some settled client kept chips. */
  lemma {:induction false} SettleAllKeep(cs: seq<Client>, dealerValue: nat)
    ensures var r := SettleAll(cs, dealerValue);
      r.keepPlaying <==> exists i :: 0 <= i < |r.results| && i < |r.clients| && r.clients[i].player.chips > 0
  {
    if cs != [] {
      var init := cs[..|cs| - 1];
      SettleAllKeep(init, dealerValue);
      SettleAllShape(init, dealerValue);
      var s := SettleAll(init, dealerValue);
      var r := SettleAll(cs, dealerValue);
      assert forall i :: 0 <= i < |s.clients| ==> r.clients[i] == s.clients[i];
      if !s.panicked && SettleClient(cs[|cs| - 1], dealerValue).Some? {
        assert |s.results| == |s.clients|;
        assert r.clients[|s.results|] == SettleClient(cs[|cs| - 1], dealerValue).value;
      }
    }
  }

  /** The three facts about the settlement loop together. */
  lemma SettleAllSpec(cs: seq<Client>, dealerValue: nat)
    ensures var r := SettleAll(cs, dealerValue);
      && |r.results| <= |cs|
      && (r.panicked <==> |r.results| < |cs|)
      && (r.panicked ==> SettleClient(cs[|r.results|], dealerValue).None?)
      && r.clients[|r.results|..] == cs[|r.results|..]
      && (forall i :: 0 <= i < |r.results| ==>
            && SettleClient(cs[i], dealerValue) == Some(r.clients[i])
            && r.results[i] == TurnResult(r.clients[i].player, CalculateEndState(cs[i].player, dealerValue)))
      && (r.keepPlaying <==> exists i :: 0 <= i < |r.results| && r.clients[i].player.chips > 0)
  {
    SettleAllShape(cs, dealerValue);
    SettleAllPaid(cs, dealerValue);
    SettleAllKeep(cs, dealerValue);
  }

  /** A settled client keeps its id, channel, position and bet; its chips move by the payout and its hand is emptied. */
  lemma SettleClientSpec(c: Client, dealerValue: nat)
    ensures var e := CalculateEndState(c.player, dealerValue);
      var total := c.player.chips + PayoutFactor(e) * c.player.currentBet;
      && (SettleClient(c, dealerValue).Some? <==> 0 <= total <= U32_MAX)
      && (SettleClient(c, dealerValue).Some? ==>
          SettleClient(c, dealerValue).value == c.(player := c.player.(chips := total, hand := [], handValue := 0)))
  {
  }

  /** Every client's payout fits a `u32`, whether or not its bet is covered. */
  predicate Payable(cs: seq<Client>, dealerValue: nat)
  {
    forall i :: 0 <= i < |cs| ==> SettleClient(cs[i], dealerValue).Some?
  }

  /** Covered bets whose triple fits are always payable. */
  lemma SafeStakesPayable(cs: seq<Client>, dealerValue: nat)
    requires forall i :: 0 <= i < |cs| ==> SafeStake(cs[i].player)
    ensures Payable(cs, dealerValue)
  {
    forall i | 0 <= i < |cs| ensures SettleClient(cs[i], dealerValue).Some? {
      SafeStakePays(cs[i].player, CalculateEndState(cs[i].player, dealerValue));
    }
  }

  /**
   * `set_bet` does not check the bet against the chips, and an uncovered bet
   * that wins is still paid: payable stakes are more than safe ones.
   */
  lemma UncoveredWinIsPayable(c: Client, dealerValue: nat)
    requires c.player.currentBet > c.player.chips
    requires CalculateEndState(c.player, dealerValue) == Win
    requires c.player.chips + c.player.currentBet <= U32_MAX
    ensures Payable([c], dealerValue) && !SafeStake(c.player)
    ensures SettleClient(c, dealerValue).value.player.chips == c.player.chips + c.player.currentBet
  {
  }

  /** Without a panic, the results cover every client in registry order. */
  lemma SettleAllComplete(cs: seq<Client>, dealerValue: nat)
    requires Payable(cs, dealerValue)
    ensures !SettleAll(cs, dealerValue).panicked
    ensures |SettleAll(cs, dealerValue).results| == |cs|
  {
  }

  /**
   * When every payout fits, the whole registry is settled: one result per
   * client in order, each paid on its end state, its hand cleared, and the
   * game goes on exactly when some client has chips left.
   */
  lemma SettleAllPays(cs: seq<Client>, dealerValue: nat)
    requires Payable(cs, dealerValue)
    ensures var r := SettleAll(cs, dealerValue);
      && !r.panicked && |r.results| == |cs|
      && (forall i :: 0 <= i < |cs| ==>
            var c, c1, end := cs[i], r.clients[i], CalculateEndState(cs[i].player, dealerValue);
            && r.results[i] == TurnResult(c1.player, end)
            && c1.player.chips == c.player.chips + PayoutFactor(end) * c.player.currentBet
            && c1 == c.(player := c.player.(chips := c1.player.chips, hand := [], handValue := 0)))
      && (r.keepPlaying <==> exists i :: 0 <= i < |cs| && r.clients[i].player.chips > 0)
  {
    SettleAllSpec(cs, dealerValue);
    forall i | 0 <= i < |cs| {
      SettleClientSpec(cs[i], dealerValue);
    }
  }

  /** Settlement keeps ids and channels, so it keeps the registry's recipients and id lookups. */
  lemma SettleAllKeepsChannels(cs: seq<Client>, dealerValue: nat)
    ensures var r := SettleAll(cs, dealerValue).clients;
      |r| == |cs| && forall i :: 0 <= i < |cs| ==> r[i].id == cs[i].id && r[i].sender == cs[i].sender && r[i].position == cs[i].position
  {
    SettleAllSpec(cs, dealerValue);
    var r := SettleAll(cs, dealerValue);
    forall i | 0 <= i < |cs| ensures r.clients[i].id == cs[i].id && r.clients[i].sender == cs[i].sender && r.clients[i].position == cs[i].position {
      if i >= |r.results| {
        assert r.clients[i] == r.clients[|r.results|..][i - |r.results|];
      }
    }
  }

  /** Once the loop has panicked on a prefix, later clients are left as they were. */
  lemma {:induction false} SettleAllAfterPanic(cs: seq<Client>, k: nat, dealerValue: nat)
    requires k <= |cs| && SettleAll(cs[..k], dealerValue).panicked
    ensures var p := SettleAll(cs[..k], dealerValue);
      SettleAll(cs, dealerValue) == p.(clients := p.clients + cs[k..])
    decreases |cs| - k
  {
    if k == |cs| {
      assert cs[..k] == cs;
    } else {
      var init := cs[..|cs| - 1];
      assert init[..k] == cs[..k];
      SettleAllAfterPanic(init, k, dealerValue);
      var p := SettleAll(cs[..k], dealerValue);
      var q := SettleAll(init, dealerValue);
      assert q == p.(clients := p.clients + init[k..]);
      assert q.panicked;
      assert SettleAll(cs, dealerValue) == q.(clients := q.clients + [cs[|cs| - 1]]);
      assert init[k..] + [cs[|cs| - 1]] == cs[k..];
    }
  }

  /** One more iteration of the settlement loop on a client whose payout succeeds. */
  lemma SettleAllExtend(cs: seq<Client>, k: nat, dealerValue: nat, done: seq<Client>, results: seq<TurnResult>, keep: bool, c: Client)
    requires k < |cs|
    requires SettleAll(cs[..k], dealerValue) == Settlement(done, results, keep, false)
    requires SettleClient(cs[k], dealerValue) == Some(c)
    ensures SettleAll(cs[..k + 1], dealerValue)
         == Settlement(done + [c], results + [TurnResult(c.player, CalculateEndState(cs[k].player, dealerValue))],
                       keep || c.player.chips > 0, false)
  {
    assert cs[..k + 1][..k] == cs[..k];
  }

  /** The iteration whose payout panics ends the loop: that client and all later ones stay as they were. */
  lemma SettleAllStop(cs: seq<Client>, k: nat, dealerValue: nat, done: seq<Client>, results: seq<TurnResult>, keep: bool)
    requires k < |cs|
    requires SettleAll(cs[..k], dealerValue) == Settlement(done, results, keep, false)
    requires SettleClient(cs[k], dealerValue).None?
    ensures SettleAll(cs, dealerValue) == Settlement(done + cs[k..], results, keep, true)
  {
    SettleAllPanicAt(cs, k, dealerValue, done, results, keep);
    SettleAllAfterPanic(cs, k + 1, dealerValue);
    assert done + [cs[k]] + cs[k + 1..] == done + cs[k..];
  }

  /** The iteration whose payout panics keeps that client and raises the flag. */
  lemma SettleAllPanicAt(cs: seq<Client>, k: nat, dealerValue: nat, done: seq<Client>, results: seq<TurnResult>, keep: bool)
    requires k < |cs|
    requires SettleAll(cs[..k], dealerValue) == Settlement(done, results, keep, false)
    requires SettleClient(cs[k], dealerValue).None?
    ensures SettleAll(cs[..k + 1], dealerValue) == Settlement(done + [cs[k]], results, keep, true)
  {
    assert cs[..k + 1][..k] == cs[..k];
  }

  /** Every cached `hand_value` in the registry is the score of its hand. */
  predicate FreshClients(cs: seq<Client>)
  {
    forall i :: 0 <= i < |cs| ==> cs[i].player.handValue == Score(cs[i].player.hand)
  }

  /** Settled clients hold an empty hand worth 0, so settlement keeps every cached value fresh. */
  lemma SettleAllKeepsFresh(cs: seq<Client>, dealerValue: nat)
    requires FreshClients(cs)
    ensures FreshClients(SettleAll(cs, dealerValue).clients)
  {
    SettleAllSpec(cs, dealerValue);
    var r := SettleAll(cs, dealerValue);
    forall i | 0 <= i < |cs| ensures r.clients[i].player.handValue == Score(r.clients[i].player.hand) {
      if i >= |r.results| {
        assert r.clients[i] == r.clients[|r.results|..][i - |r.results|];
      }
    }
  }
}
