/**
  `Message` (package userauthenticationsystem): a message record whose id comes
  from a process-wide counter, with its length and recipient checks, its
  content fingerprint ("hash"), its send/store flags and the menu mapping that
  picks an action.

  Java keeps the counter in a `static` field. Here it is one `MessageCounter`
  object that every message shares through its `counter` field.
 */
module Messages {
  import opened Wrappers
  import opened JavaStrings
  import opened DecimalFormat
  import opened WhitespaceSplit
  import opened PhonePattern

  /** The longest message content the application accepts. */
  const MaxMessageLength := 250

  /** The static `messageCounter`, which starts at 1; `issued` counts the ids handed out so far. */
  class MessageCounter {
    var value: nat
    ghost var issued: nat

    ghost predicate Valid()
      reads this
    {
      value == issued + 1
    }

    constructor ()
      ensures Valid() && value == 1 && issued == 0
    {
      value := 1;
      issued := 0;
    }

    /** `generateMessageId`: `String.format("%05d", messageCounter++)`. */
    method GenerateMessageId() returns (id: string)
      requires Valid()
      modifies this
      ensures Valid()
      ensures id == FormatMessageId(old(value))
      ensures value == old(value) + 1 && issued == old(issued) + 1
    {
      id := FormatMessageId(value);
      value := value + 1;
      issued := issued + 1;
    }
  }

  /** The id for counter value `n`: its digits, zero-padded to five, and `n` can be read back from it. */
  function FormatMessageId(n: nat): (id: string)
    ensures |id| >= 5 && AllDigits(id)
    ensures ParseDecimal(id) == n
    ensures n < 100000 ==> |id| == 5
  {
    ParseZeroPad(n, 5);
    ZeroPadWidth(n, 5);
    assert Pow10(5) == 100000;
    ZeroPad(n, 5)
  }

  /** Ids taken at different counter values differ, and a later id reads back as a larger number. */
  lemma MessageIdsIncrease(a: nat, b: nat)
    requires a < b
    ensures FormatMessageId(a) != FormatMessageId(b)
    ensures ParseDecimal(FormatMessageId(a)) < ParseDecimal(FormatMessageId(b))
  {
  }

  function FirstWord(words: seq<string>): string {
    if |words| > 0 then words[0] else ""
  }

  /** The last element when there are at least two, otherwise the first word again. */
  function LastWord(words: seq<string>): string {
    if |words| > 1 then words[|words| - 1] else FirstWord(words)
  }

  /**
    `checkMessageHash`: the first two characters of the id, the counter's
    current value padded to two digits, and the upper-cased first and last
    words, joined by colons.
   */
  function MessageHash(messageId: string, content: string, counter: nat): (h: string)
    requires |messageId| >= 2
    ensures |h| > 4 + |ZeroPad(counter, 2)| && h[..2] == messageId[..2] && h[2] == ':'
    ensures forall i :: 4 + |ZeroPad(counter, 2)| <= i < |h| ==> !IsLower(h[i])
  {
    var words := Split(content);
    var front := messageId[..2] + ":" + ZeroPad(counter, 2) + ":";
    var back := ToUpperCase(FirstWord(words)) + ":" + ToUpperCase(LastWord(words));
    UpperFieldsHaveNoLower(FirstWord(words), LastWord(words));
    NoLowerAfter(front, back);
    front + back
  }

  /** Two upper-cased words joined by a colon hold no lower-case letter. */
  lemma UpperFieldsHaveNoLower(a: string, b: string)
    ensures forall i :: 0 <= i < |ToUpperCase(a) + ":" + ToUpperCase(b)| ==> !IsLower((ToUpperCase(a) + ":" + ToUpperCase(b))[i])
  {
  }

  /** A part without lower-case letters keeps none when something is put in front of it. */
  lemma NoLowerAfter(front: string, back: string)
    requires forall i :: 0 <= i < |back| ==> !IsLower(back[i])
    ensures forall i :: |front| <= i < |front + back| ==> !IsLower((front + back)[i])
  {
  }

  /** A one-word message puts that word, upper-cased, in both word slots. */
  lemma HashOfOneWord(messageId: string, content: string, counter: nat)
    requires |messageId| >= 2 && content != [] && NoSpace(content)
    ensures MessageHash(messageId, content, counter)
         == messageId[..2] + ":" + ZeroPad(counter, 2) + ":"
            + ToUpperCase(content) + ":" + ToUpperCase(content)
  {
    SplitNoSpace(content);
  }

  /** A message that is empty or nothing but whitespace leaves both word slots empty. */
  lemma HashOfBlankContent(messageId: string, content: string, counter: nat)
    requires |messageId| >= 2 && AllSpace(content)
    ensures MessageHash(messageId, content, counter)
         == messageId[..2] + ":" + ZeroPad(counter, 2) + "::"
  {
    SplitEmptyIff(content);
    if content == [] {
      assert Split(content) == [[]];
    }
  }

  /**
    For content holding any non-whitespace character, the first word slot is
    everything before the first whitespace character and the last word slot is
    the content's final word, both upper-cased.
   */
  lemma HashOfWords(messageId: string, content: string, counter: nat)
    requires |messageId| >= 2 && !AllSpace(content)
    ensures exists w :: IsLastWord(content, w)
                        && MessageHash(messageId, content, counter)
                           == messageId[..2] + ":" + ZeroPad(counter, 2) + ":"
                              + ToUpperCase(content[..FirstSpace(content)]) + ":" + ToUpperCase(w)
  {
    var words := Split(content);
    SplitLastWord(content);
    SplitFirstWord(content);
    var w := words[|words| - 1];
    assert FirstWord(words) == content[..FirstSpace(content)];
    assert LastWord(words) == w;
    HashFields(messageId, content, counter);
  }

  /** The fingerprint field by field, as the Java code assembles it. */
  lemma HashFields(messageId: string, content: string, counter: nat)
    requires |messageId| >= 2
    ensures MessageHash(messageId, content, counter)
         == messageId[..2] + ":" + ZeroPad(counter, 2) + ":"
            + ToUpperCase(FirstWord(Split(content))) + ":" + ToUpperCase(LastWord(Split(content)))
  {
  }

  /**
    Content that starts with whitespace but holds a word gets an empty first
    word: Java's split keeps the empty string in front of a leading whitespace
    run, so the first word slot is empty and the last word is the final token.
   */
  lemma HashOfLeadingWhitespace(messageId: string, content: string, counter: nat)
    requires |messageId| >= 2 && content != [] && IsSpace(content[0]) && !AllSpace(content)
    ensures var words := Split(content);
            |words| >= 2 && words[0] == []
            && MessageHash(messageId, content, counter)
               == messageId[..2] + ":" + ZeroPad(counter, 2) + "::" + ToUpperCase(words[|words| - 1])
  {
    var words := Split(content);
    SplitEmptyIff(content);
    SplitFirstEmptyIff(content);
    SplitWords(content);
    NonSpaceEmptyIff(content);
    assert Concat(words) == words[0] + Concat(words[1..]);
  }

  /** Past the two id characters and the first colon, a fingerprint holds the padded counter and a colon. */
  lemma HashCounterField(messageId: string, content: string, counter: nat)
    requires |messageId| >= 2
    ensures var h, z := MessageHash(messageId, content, counter), ZeroPad(counter, 2);
            |h| > 3 + |z| && h[3..3 + |z|] == z && h[3 + |z|] == ':'
  {
    var words := Split(content);
    var z := ZeroPad(counter, 2);
    var front := messageId[..2] + ":" + z + ":";
    var h := MessageHash(messageId, content, counter);
    assert h == front + ToUpperCase(FirstWord(words)) + ":" + ToUpperCase(LastWord(words));
    assert forall j :: 0 <= j < |front| ==> h[j] == front[j];
    assert forall j :: 0 <= j < |z| ==> front[3 + j] == z[j];
    assert front[3 + |z|] == ':';
  }

  /**
    The fingerprint reads the counter when it is asked for, so creating another
    message (which moves the counter) always changes the fingerprint of an
    existing one.
   */
  lemma HashTracksCounter(messageId: string, content: string, c1: nat, c2: nat)
    requires |messageId| >= 2 && c1 != c2
    ensures MessageHash(messageId, content, c1) != MessageHash(messageId, content, c2)
  {
    var h1, h2 := MessageHash(messageId, content, c1), MessageHash(messageId, content, c2);
    var z1, z2 := ZeroPad(c1, 2), ZeroPad(c2, 2);
    HashCounterField(messageId, content, c1);
    HashCounterField(messageId, content, c2);
    if |z1| == |z2| {
      if z1 == z2 { ZeroPadInjective(c1, c2, 2); }
      assert h1[3..3 + |z1|] != h2[3..3 + |z2|];
    } else if |z1| < |z2| {
      assert h1[3 + |z1|] == ':' && h2[3 + |z1|] == z2[|z1|];
      assert IsDigit(z2[|z1|]);
    } else {
      assert h2[3 + |z2|] == ':' && h1[3 + |z2|] == z1[|z2|];
      assert IsDigit(z1[|z2|]);
    }
  }

  /** `sendMessageAction`: the trimmed menu choice, "1" send, "2" discard, "3" or anything else store. */
  function SendMessageAction(choice: string): (action: string)
    ensures action == "send" <==> Trim(choice) == "1"
    ensures action == "discard" <==> Trim(choice) == "2"
    ensures action == "store" <==> Trim(choice) != "1" && Trim(choice) != "2"
  {
    match Trim(choice)
    case "1" => "send"
    case "2" => "discard"
    case "3" => "store"
    case _ => "store"
  }

  class Message {
    const messageId: string
    const messageContent: string
    const recipient: Option<string>
    const counter: MessageCounter
    var isSent: bool
    var isStored: bool

    /** Takes the next id from the shared counter; both flags start false. */
    constructor (messageContent: string, recipient: Option<string>, counter: MessageCounter)
      requires counter.Valid()
      modifies counter
      ensures counter.Valid()
      ensures this.messageId == FormatMessageId(old(counter.value))
      ensures counter.value == old(counter.value) + 1 && counter.issued == old(counter.issued) + 1
      ensures this.messageContent == messageContent && this.recipient == recipient
      ensures this.counter == counter
      ensures !isSent && !isStored
    {
      var id := counter.GenerateMessageId();
      this.messageId := id;
      this.messageContent := messageContent;
      this.recipient := recipient;
      this.counter := counter;
      isSent := false;
      isStored := false;
    }

    /** `checkMessageLength` */
    function CheckMessageLength(): (ok: bool)
      ensures ok <==> |messageContent| <= MaxMessageLength
    {
      |messageContent| <= MaxMessageLength
    }

    /** `checkRecipientFormat`: false for null or blank, otherwise the international cell-number rule. */
    function CheckRecipientFormat(): (ok: bool)
      ensures ok <==> recipient.Some? && PlusAndDigits(recipient.value, 8, 13)
    {
      if recipient.None? || IsBlank(recipient.value) then false
      else
        InternationalMeaning(recipient.value);
        MatchesInternational(recipient.value)
    }

    /**
      `checkMessageHash`, reading the shared counter as it is now: the
      fingerprint starts with the id's first two characters, and its second
      field reads back as the counter's current value.
     */
    function CheckMessageHash(): (h: string)
      reads counter
      requires |messageId| >= 2
      ensures |h| > 2 && h[..2] == messageId[..2]
      ensures var z := |ZeroPad(counter.value, 2)|;
              |h| > 3 + z && h[3 + z] == ':' && AllDigits(h[3..3 + z]) && ParseDecimal(h[3..3 + z]) == counter.value
    {
      HashCounterField(messageId, messageContent, counter.value);
      ParseZeroPad(counter.value, 2);
      MessageHash(messageId, messageContent, counter.value)
    }

    /** `returnTotalMessages`: the counter, which is one more than the number of messages created. */
    function ReturnTotalMessages(): (text: string)
      reads counter
      requires counter.Valid()
      ensures text == "Total messages: " + Decimal(counter.issued + 1)
    {
      "Total messages: " + Decimal(counter.value)
    }

    /** `markAsSent`: sets the sent flag and nothing else. */
    method MarkAsSent()
      modifies this`isSent
      ensures isSent
    {
      isSent := true;
    }

    /** `storeMessage`: sets the stored flag and nothing else (the JSON write is only a comment). */
    method StoreMessage()
      modifies this`isStored
      ensures isStored
    {
      isStored := true;
    }
  }

  /**
    Two messages made one after the other: distinct ids, increasing as numbers,
    and making the second one changes the first one's fingerprint
    (`hashBefore` is taken between the two constructions, `hashAfter` after both).
   */
  method TwoMessages(counter: MessageCounter) returns (first: Message, second: Message, hashBefore: string, hashAfter: string)
    requires counter.Valid()
    modifies counter
    ensures first.messageId != second.messageId
    ensures AllDigits(first.messageId) && AllDigits(second.messageId)
    ensures ParseDecimal(first.messageId) + 1 == ParseDecimal(second.messageId)
    ensures hashBefore != hashAfter
  {
    first := new Message("Hi Mike, can you join us for dinner tonight", Some("+27718693002"), counter);
    hashBefore := first.CheckMessageHash();
    second := new Message("Hi Keegan, did you receive the payment?", Some("08575975889"), counter);
    hashAfter := first.CheckMessageHash();
    HashTracksCounter(first.messageId, first.messageContent, counter.value - 1, counter.value);
  }
}
