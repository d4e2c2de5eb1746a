/** The play state of the memory-matching game: the displayed cards, the
    pending selection, the board lock and the sound cues played so far.
    Timers are replaced by explicit steps: the delayed unflip after a
    mismatch is `ResolveMismatch`, and a staggered batch flip is given by
    the state it leaves once every timer has fired. */
module Board {
  import opened Deck

  /** The two sound cues; the model records which one is played. */
  datatype Cue = Match | Fail

  /** The actions `flipCards` recognises. */
  const ShowBack := "show-back"
  const ShowFront := "show-front"

  /** The number of cards the card loop creates. */
  const CardCount := 16

  /** One `.card` element: its `data-back` image, whether it carries the
      `flipped` class, and whether its click listener is still attached. */
  class Card {
    const back: string
    var flipped: bool
    var enabled: bool

    constructor (back: string)
      ensures this.back == back && !flipped && enabled
    {
      this.back := back;
      flipped := false;
      enabled := true;
    }
  }

  /** The session: the globals of the game script as fields. */
  class Game {
    var theme: Theme
    var allBackImages: seq<string>
    /** The children of the card container, in board order. */
    var cards: seq<Card>
    var first: Card?
    var second: Card?
    var lock: bool
    /** Every cue played so far, oldest first. */
    var cues: seq<Cue>

    /** The displayed cards are distinct elements; a second card is only
        selected after a different first card; the board is locked exactly
        while a pair is selected. */
    ghost predicate Valid()
      reads this
    {
      && (forall i, j :: 0 <= i < j < |cards| ==> cards[i] != cards[j])
      && (second != null ==> first != null && second != first)
      && (lock <==> second != null)
    }

    /** The script's initial globals: the given theme, no cards yet, no
        selection, the board unlocked. */
    constructor (theme: Theme)
      ensures Valid()
      ensures this.theme == theme && allBackImages == [] && cards == []
      ensures first == null && second == null && !lock && cues == []
    {
      this.theme := theme;
      allBackImages := [];
      cards := [];
      first, second := null, null;
      lock := false;
      cues := [];
    }

    /** `generateCards`: push every back image of the theme twice, shuffle the
        list with `draws` standing for the calls to `Math.random()`, then
        replace the displayed cards by 16 new ones, card i showing entry i.
        The selection and the lock are left as they were. */
    method GenerateCards(draws: seq<real>)
      requires Valid()
      requires |draws| == 2 * |BackImages(theme)| && ValidDraws(draws)
      modifies this`allBackImages, this`cards
      ensures Valid()
      ensures allBackImages == Shuffled(Doubled(BackImages(theme)), draws)
      ensures |allBackImages| == CardCount && |cards| == CardCount
      ensures forall i :: 0 <= i < CardCount ==>
        fresh(cards[i]) && cards[i].back == allBackImages[i] && !cards[i].flipped && cards[i].enabled
    {
      allBackImages := BuildDeck(theme, draws);
      ghost var deck := allBackImages;
      cards := [];
      for i := 0 to CardCount
        invariant allBackImages == deck
        invariant |cards| == i
        invariant forall k :: 0 <= k < i ==>
          fresh(cards[k]) && cards[k].back == allBackImages[k] && !cards[k].flipped && cards[k].enabled
        invariant forall k, l :: 0 <= k < l < i ==> cards[k] != cards[l]
      {
        var card := new Card(allBackImages[i]);
        cards := cards + [card];
      }
    }

    /** The theme selector's change handler: record the chosen theme, then
        regenerate the cards for it. */
    method SelectTheme(t: Theme, draws: seq<real>)
      requires Valid()
      requires |draws| == 2 * |BackImages(t)| && ValidDraws(draws)
      modifies this`theme, this`allBackImages, this`cards
      ensures Valid() && theme == t
      ensures allBackImages == Shuffled(Doubled(BackImages(t)), draws)
      ensures |allBackImages| == CardCount && |cards| == CardCount
      ensures forall i :: 0 <= i < CardCount ==>
        fresh(cards[i]) && cards[i].back == allBackImages[i] && !cards[i].flipped && cards[i].enabled
    {
      theme := t;
      GenerateCards(draws);
    }

    /** A click on card `c`. It reaches `flipCard` only while the card's click
        listener is attached; `flipCard` ignores it while the board is locked
        or when `c` is already the first card. Otherwise `c` is flipped and
        becomes the first card, or, if a first card is pending, the second
        one: the board is locked and the pair evaluated. */
    method FlipCard(c: Card)
      requires Valid() && c in cards
      modifies this`first, this`second, this`lock, this`cues, c, first
      ensures Valid()
      ensures var f := old(first);
        if !old(c.enabled) || old(lock) || c == f then
          && first == f && second == old(second) && lock == old(lock) && cues == old(cues)
          && c.flipped == old(c.flipped) && c.enabled == old(c.enabled)
          && (f != null ==> f.flipped == old(f.flipped) && f.enabled == old(f.enabled))
        else if f == null then
          && c.flipped && c.enabled
          && first == c && second == null && !lock && cues == old(cues)
        else if f.back == c.back then
          && c.flipped && !c.enabled && !f.enabled && f.flipped == old(f.flipped)
          && first == null && second == null && !lock && cues == old(cues) + [Match]
        else
          && c.flipped && c.enabled && f.flipped == old(f.flipped) && f.enabled == old(f.enabled)
          && first == f && second == c && lock && cues == old(cues) + [Fail]
    {
      if !c.enabled {
        return;
      }
      if lock || c == first {
        return;
      }
      c.flipped := true;
      if first == null {
        first := c;
      } else {
        second := c;
        lock := true;
        CheckForMatch();
      }
    }

    /** `checkForMatch`: the pair matches when both cards show the same back
        image. A match disables both cards and plays the match cue; a mismatch
        plays the fail cue at once and leaves the board locked with both cards
        flipped until `ResolveMismatch` runs. */
    method CheckForMatch()
      requires Valid() && lock
      modifies this`first, this`second, this`lock, this`cues, first, second
      ensures Valid()
      ensures var f, s := old(first), old(second);
        && f.flipped == old(f.flipped) && s.flipped == old(s.flipped)
        && if f.back == s.back then
             && !f.enabled && !s.enabled
             && first == null && second == null && !lock && cues == old(cues) + [Match]
           else
             && f.enabled == old(f.enabled) && s.enabled == old(s.enabled)
             && first == f && second == s && lock && cues == old(cues) + [Fail]
    {
      if IsMatch(first, second) {
        DisableCards();
        PlaySound(Match);
      } else {
        // unflipCards only schedules ResolveMismatch.
        PlaySound(Fail);
      }
    }

    /** `disableCards`: remove the click listener of both selected cards, then
        clear the selection and unlock. */
    method DisableCards()
      requires Valid() && lock
      modifies this`first, this`second, this`lock, first`enabled, second`enabled
      ensures Valid()
      ensures !old(first).enabled && !old(second).enabled
      ensures first == null && second == null && !lock
    {
      first.enabled := false;
      second.enabled := false;
      ResetBoard();
    }

    /** The delayed step of `unflipCards`: turn both selected cards face down
        again, then clear the selection and unlock. Until it runs the board
        stays locked, so no click can change the selection. */
    method ResolveMismatch()
      requires Valid() && lock
      modifies this`first, this`second, this`lock, first`flipped, second`flipped
      ensures Valid()
      ensures !old(first).flipped && !old(second).flipped
      ensures first == null && second == null && !lock
    {
      first.flipped := false;
      second.flipped := false;
      ResetBoard();
    }

    /** `resetBoard`: no selection, board unlocked. */
    method ResetBoard()
      requires Valid()
      modifies this`first, this`second, this`lock
      ensures Valid()
      ensures first == null && second == null && !lock
    {
      first, second := null, null;
      lock := false;
    }

    /** `playSound`: the cue is played (recorded) after those before it. */
    method PlaySound(cue: Cue)
      modifies this`cues
      ensures cues == old(cues) + [cue]
    {
      cues := cues + [cue];
    }

    /** `flipCards` once all its staggered timers have fired: `ShowBack`
        flips every displayed card, `ShowFront` turns every one face down,
        matched cards included, and any other action changes nothing. The
        selection, the lock and the click listeners are untouched. */
    method FlipCards(action: string)
      requires Valid()
      modifies cards
      ensures Valid()
      ensures forall k :: 0 <= k < |cards| ==> cards[k].enabled == old(cards[k].enabled)
      ensures action == ShowBack ==> forall k :: 0 <= k < |cards| ==> cards[k].flipped
      ensures action == ShowFront ==> forall k :: 0 <= k < |cards| ==> !cards[k].flipped
      ensures action != ShowBack && action != ShowFront ==>
        forall k :: 0 <= k < |cards| ==> cards[k].flipped == old(cards[k].flipped)
    {
      for i := 0 to |cards|
        invariant forall k :: 0 <= k < |cards| ==> cards[k].enabled == old(cards[k].enabled)
        invariant forall k :: 0 <= k < i ==>
          cards[k].flipped == if action == ShowBack then true
                              else if action == ShowFront then false
                              else old(cards[k].flipped)
        invariant forall k :: i <= k < |cards| ==> cards[k].flipped == old(cards[k].flipped)
      {
        if action == ShowBack {
          cards[i].flipped := true;
        } else if action == ShowFront {
          cards[i].flipped := false;
        }
      }
    }
  }

  /** The comparison in `checkForMatch`: two cards match when their
      `data-back` images are equal. */
  predicate IsMatch(a: Card, b: Card)
  {
    a.back == b.back
  }
}
