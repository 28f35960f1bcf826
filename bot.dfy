/** The recommendation bot of bot.py: a per-user position into the list of protocols,
    reset when recommendations are opened, moved by the back and forward buttons of the
    protocol card, and the card itself. Sending, deleting and answering messages are left
    out; what a handler would send is returned as a `Card`. */
module Bot {
  import opened Wrappers
  import opened Text
  import opened DeBank

  datatype Button = Button(text: string, callbackData: string)

  /** An inline keyboard: rows of buttons. */
  type Keyboard = seq<seq<Button>>

  /** What `send_photo` is given: the photo URL, the HTML caption and the keyboard. */
  datatype Card = Card(photo: string, caption: string, keyboard: Keyboard)

  const BackText := "⬅️ Назад"
  const ForwardText := "Вперёд ➡️"

  function PrevData(pos: int): string {
    "prev_" + IntToString(pos)
  }

  function NextData(pos: int): string {
    "next_" + IntToString(pos)
  }

  /** The buttons a card at `pos` of `count` protocols should carry: back unless it is the
      first, forward unless it is the last, side by side in one row when both are there. */
  function NavigationKeyboard(pos: int, count: int): Keyboard {
    var back, forward := Button(BackText, PrevData(pos)), Button(ForwardText, NextData(pos));
    if pos > 0 && pos < count - 1 then [[back, forward]]
    else if pos > 0 then [[back]]
    else if pos < count - 1 then [[forward]]
    else []
  }

  predicate Offers(keyboard: Keyboard, data: string) {
    exists r, j :: 0 <= r < |keyboard| && 0 <= j < |keyboard[r]| && keyboard[r][j].callbackData == data
  }

  /** The caption of a protocol card. */
  function Caption(p: Protocol): string {
    "<b>" + p.name + "</b>\n\n"
    + "<b>HEX адрес:</b> <code>" + p.hexAddress + "</code>\n"
    + "<b>Описание:</b> " + p.description + "\n"
    + "<b>Ссылка:</b> " + p.url
  }

  /** The position a user is shown: their stored one, or 0 for a user never seen. */
  function PositionOf(positions: map<int, int>, userId: int): int {
    if userId in positions then positions[userId] else 0
  }

  /** Python's `protocols[pos]` succeeds for -count <= pos < count, counting negative
      positions from the end. */
  function PyIndex(pos: int, count: nat): (i: int)
    requires 0 <= pos + count && pos < count
    ensures 0 <= i < count
    ensures i == pos || i == pos + count
  {
    if pos < 0 then pos + count else pos
  }

  /** The callback filter of the handler: data starting with `prev_` or `next_`. */
  predicate Accepted(data: string) {
    StartsWith(data, "prev_") || StartsWith(data, "next_")
  }

  /** The position a callback moves to: the data split at `_` must give exactly two
      pieces, the second an integer k; `prev` gives k - 1 and anything else k + 1. `None`
      is the `ValueError` raised by the unpacking or by `int`. */
  function ParseCallback(data: string): Option<int> {
    var parts := Split(data, "_");
    if |parts| != 2 then None
    else match ParseInt(parts[1])
      case None => None
      case Some(k) => Some(if parts[0] == "prev" then k - 1 else k + 1)
  }

  /** The callback data of a button splits back into its action and its position. */
  lemma SplitCallback(action: string, pos: int)
    requires '_' !in action
    ensures Split(action + "_" + IntToString(pos), "_") == [action, IntToString(pos)]
  {
    SplitConcat(action, "_", IntToString(pos));
    ContainsChar(action, '_');
    SplitAbsent(action, "_");
    IntToStringChars(pos, '_');
    ContainsChar(IntToString(pos), '_');
    SplitAbsent(IntToString(pos), "_");
  }

  /** The back button of position k leads to k - 1 and the forward button to k + 1. */
  lemma CallbackTargets(pos: int)
    ensures Accepted(PrevData(pos)) && ParseCallback(PrevData(pos)) == Some(pos - 1)
    ensures Accepted(NextData(pos)) && ParseCallback(NextData(pos)) == Some(pos + 1)
  {
    SplitCallback("prev", pos);
    SplitCallback("next", pos);
    IntRoundTrip(pos);
    assert PrevData(pos) == "prev" + "_" + IntToString(pos);
    assert NextData(pos) == "next" + "_" + IntToString(pos);
  }

  /** Back is offered exactly when the card is not the first, forward exactly when it is
      not the last, and when both are offered they share the one row. */
  lemma KeyboardButtons(pos: int, count: int)
    ensures Offers(NavigationKeyboard(pos, count), PrevData(pos)) <==> pos > 0
    ensures Offers(NavigationKeyboard(pos, count), NextData(pos)) <==> pos < count - 1
    ensures forall data :: Offers(NavigationKeyboard(pos, count), data) ==> data == PrevData(pos) || data == NextData(pos)
    ensures pos > 0 && pos < count - 1 ==> |NavigationKeyboard(pos, count)| == 1
  {
    var kb: Keyboard := NavigationKeyboard(pos, count);
    assert PrevData(pos)[0] != NextData(pos)[0];
    if pos > 0 {
      assert kb[0][0].callbackData == PrevData(pos);
    }
    if pos < count - 1 {
      assert kb[0][|kb[0]| - 1].callbackData == NextData(pos);
    }
  }

  /** Following a button of a card whose position is in range leads to a position in
      range, so the next `protocols[position]` is an ordinary index. */
  lemma OfferedButtonsStayInRange(pos: int, count: int, data: string)
    requires 0 <= pos < count && Offers(NavigationKeyboard(pos, count), data)
    ensures Accepted(data)
    ensures ParseCallback(data).Some? && 0 <= ParseCallback(data).value < count
  {
    KeyboardButtons(pos, count);
    CallbackTargets(pos);
  }

  class RecommendationBot {
    /** The protocols, in the order `random.shuffle` last left them. */
    var protocols: seq<Protocol>
    /** `user_positions`: the card each user is at. */
    var userPositions: map<int, int>
    /** Whether `mimetypes.guess_type` reads a URL as an SVG image. */
    const isSvg: string -> bool

    constructor (protocols: seq<Protocol>, isSvg: string -> bool)
      ensures this.protocols == protocols && this.isSvg == isSvg && userPositions == map[]
    {
      this.protocols := protocols;
      this.isSvg := isSvg;
      userPositions := map[];
    }

    /** Every stored position indexes a protocol. */
    predicate InRange()
      reads this
    {
      forall u :: u in userPositions ==> 0 <= userPositions[u] < |protocols|
    }

    /** `display_protocol_card`: the card for the user's position, or the `IndexError` of
        `protocols[position]`. */
    method DisplayProtocolCard(userId: int) returns (card: Result<Card>)
      ensures var pos, count := PositionOf(userPositions, userId), |protocols|;
        && (card.Ok? <==> 0 <= pos + count && pos < count)
        && (card.Ok? ==>
          var p := protocols[PyIndex(pos, count)];
          && card.value.keyboard == NavigationKeyboard(pos, count)
          && card.value.caption == Caption(p)
          && card.value.photo == (if isSvg(p.imageUrl) || p.imageUrl == "" then EthLogo else p.imageUrl))
    {
      var position := PositionOf(userPositions, userId);
      var count := |protocols|;
      if !(0 <= position + count && position < count) {
        return Err("IndexError: list index out of range");
      }
      var protocol := protocols[if position < 0 then position + count else position];
      var back, forward := Button(BackText, PrevData(position)), Button(ForwardText, NextData(position));
      var keyboard: Keyboard := [];
      if position > 0 {
        keyboard := keyboard + [[back]];
      }
      if position < count - 1 {
        if position > 0 {
          assert keyboard[0] + [forward] == [back, forward];
          keyboard := keyboard[0 := keyboard[0] + [forward]];
        } else {
          keyboard := keyboard + [[forward]];
        }
      }
      var imageUrl: Option<string> := Some(protocol.imageUrl);
      if isSvg(protocol.imageUrl) {
        imageUrl := None;
      }
      var photo := if imageUrl.Some? && imageUrl.value != "" then imageUrl.value else EthLogo;
      return Ok(Card(photo, Caption(protocol), keyboard));
    }

    /** `show_recommendations`: reshuffle the protocols (`shuffled` is the order the
        shuffle produced), put the user at the first card and show it. */
    method ShowRecommendations(userId: int, shuffled: seq<Protocol>) returns (card: Result<Card>)
      requires multiset(shuffled) == multiset(protocols)
      modifies this
      ensures protocols == shuffled && userPositions == old(userPositions)[userId := 0]
      ensures card.Ok? <==> |protocols| > 0
      ensures card.Ok? ==> card.value.keyboard == NavigationKeyboard(0, |protocols|) && card.value.caption == Caption(protocols[0])
      ensures old(InRange()) && |shuffled| > 0 ==> InRange()
    {
      assert |shuffled| == |multiset(shuffled)| == |multiset(protocols)| == |protocols|;
      protocols := shuffled;
      userPositions := userPositions[userId := 0];
      card := DisplayProtocolCard(userId);
    }

    /** `process_callback`: move the user to the position the callback names and show
        that card; a callback that does not parse raises before anything changes. */
    method ProcessCallback(userId: int, data: string) returns (card: Result<Card>)
      requires Accepted(data)
      modifies this`userPositions
      ensures ParseCallback(data).None? ==> userPositions == old(userPositions) && card.Err?
      ensures ParseCallback(data).Some? ==>
        && userPositions == old(userPositions)[userId := ParseCallback(data).value]
        && (card.Ok? <==> 0 <= ParseCallback(data).value + |protocols| && ParseCallback(data).value < |protocols|)
        && (card.Ok? ==> card.value.keyboard == NavigationKeyboard(ParseCallback(data).value, |protocols|))
      ensures old(InRange()) && (exists pos :: 0 <= pos < |protocols| && Offers(NavigationKeyboard(pos, |protocols|), data)) ==>
        InRange() && card.Ok?
    {
      if exists pos :: 0 <= pos < |protocols| && Offers(NavigationKeyboard(pos, |protocols|), data) {
        var pos :| 0 <= pos < |protocols| && Offers(NavigationKeyboard(pos, |protocols|), data);
        OfferedButtonsStayInRange(pos, |protocols|, data);
      }
      var parts := Split(data, "_");
      if |parts| != 2 {
        return Err("ValueError: wrong number of values to unpack");
      }
      var action := parts[0];
      var currentPos := ParseInt(parts[1]);
      if currentPos.None? {
        return Err("ValueError: invalid literal for int()");
      }
      var newPos;
      if action == "prev" {
        newPos := currentPos.value - 1;
      } else {
        newPos := currentPos.value + 1;
      }
      userPositions := userPositions[userId := newPos];
      card := DisplayProtocolCard(userId);
    }
  }
}
