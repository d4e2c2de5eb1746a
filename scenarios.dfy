/** Two rounds of play written as clients of the board's methods: what a
    player sees after clicking a matching pair and after clicking a pair that
    does not match. */
module Scenarios {
  import opened Board

  /** Clicking two different cards with the same back image on an idle board
      plays the match cue, leaves both face up without click listeners and
      unlocks the board; a later click on either of them changes nothing. */
  method MatchRound(g: Game, i: nat, j: nat)
    requires g.Valid() && !g.lock && g.first == null
    requires i < |g.cards| && j < |g.cards| && i != j
    requires g.cards[i].enabled && g.cards[j].enabled && g.cards[i].back == g.cards[j].back
    modifies g`first, g`second, g`lock, g`cues, g.cards[i], g.cards[j]
    ensures g.Valid() && g.cards == old(g.cards)
    ensures g.cues == old(g.cues) + [Match]
    ensures g.cards[i].flipped && g.cards[j].flipped
    ensures !g.cards[i].enabled && !g.cards[j].enabled
    ensures g.first == null && g.second == null && !g.lock
  {
    var a, b := g.cards[i], g.cards[j];
    g.FlipCard(a);
    g.FlipCard(b);
    g.FlipCard(a);
    g.FlipCard(b);
  }

  /** Clicking two different cards with different back images on an idle
      board plays the fail cue at once and locks the board: a click on any
      other card is ignored. Once the delayed step has run, both cards are face
      down again, still clickable, and the board is unlocked. */
  method MismatchRound(g: Game, i: nat, j: nat, k: nat)
    requires g.Valid() && !g.lock && g.first == null
    requires i < |g.cards| && j < |g.cards| && k < |g.cards| && i != j
    requires g.cards[i].enabled && g.cards[j].enabled && g.cards[i].back != g.cards[j].back
    modifies g`first, g`second, g`lock, g`cues, g.cards[i], g.cards[j], g.cards[k]
    ensures g.Valid() && g.cards == old(g.cards)
    ensures g.cues == old(g.cues) + [Fail]
    ensures !g.cards[i].flipped && !g.cards[j].flipped
    ensures g.cards[i].enabled && g.cards[j].enabled
    ensures k != i && k != j ==>
      g.cards[k].flipped == old(g.cards[k].flipped) && g.cards[k].enabled == old(g.cards[k].enabled)
    ensures g.first == null && g.second == null && !g.lock
  {
    var a, b := g.cards[i], g.cards[j];
    g.FlipCard(a);
    g.FlipCard(b);
    assert g.lock && g.cues == old(g.cues) + [Fail];
    g.FlipCard(g.cards[k]);
    g.ResolveMismatch();
  }
}
