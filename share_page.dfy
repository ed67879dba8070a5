/**
 * The share page: reading a `#data=` or `#seed=` fragment, the per-character
 * `%hh` escape that turns `atob`'s binary string into percent-encoded UTF-8
 * for `decodeURIComponent`, the error and title rules, and which screen the
 * page then draws. `atob`, `decodeURIComponent` and `JSON.parse` are passed in
 * as partial functions; the decoded JSON value is the type parameter `J`.
 */
module SharePage {
  import opened Base
  import opened Text

  const DATA_PREFIX := "#data="
  const SEED_PREFIX := "#seed="
  const NO_DATA := "No chat data provided in the URL fragment."
  const BAD_SHARE := "Invalid or corrupted share link."
  const BAD_SEED := "Invalid or corrupted seed link."
  const SEED_TITLE := "Start New Chat"
  const TITLE_SUFFIX := " | Shared Chat"

  // ---------------------------------------------------------------- the `%hh` escape

  /** `('00' + c.charCodeAt(0).toString(16)).slice(-2)`: the last two characters. */
  function HexPair(c: char): (r: string)
    ensures |r| == 2
  {
    var h := "00" + NatToString(c as nat, 16);
    h[|h| - 2..]
  }

  /** `'%' + ('00' + c.charCodeAt(0).toString(16)).slice(-2)`. */
  function Escape(c: char): (r: string)
    ensures |r| == 3 && r[0] == '%'
  {
    "%" + HexPair(c)
  }

  /** `s.split('').map(escape).join('')`. */
  function EscapeAll(s: string): (r: string)
    ensures |r| == 3 * |s|
  {
    if s == [] then [] else Escape(s[0]) + EscapeAll(s[1..])
  }

  /** The value of one lower-case hexadecimal digit. */
  function HexValue(c: char): int {
    if '0' <= c <= '9' then c as int - '0' as int
    else if 'a' <= c <= 'f' then c as int - 'a' as int + 10
    else -1
  }

  lemma HexDigitValue(d: nat)
    requires d < 16
    ensures HexValue(DigitChar(d)) == d
  {
  }

  /** A code below 256 escapes to `%` and its two lower-case hexadecimal digits, high digit first. */
  lemma EscapeDigits(c: char)
    requires c as int < 256
    ensures Escape(c) == ['%', DigitChar(c as int / 16), DigitChar(c as int % 16)]
  {
    var n := c as int;
    var h := NatToString(n, 16);
    if n < 16 {
      assert h == [DigitChar(n)];
      assert HexPair(c) == ['0', DigitChar(n)];
    } else {
      assert h == NatToString(n / 16, 16) + [DigitChar(n % 16)];
      assert NatToString(n / 16, 16) == [DigitChar(n / 16)];
      assert HexPair(c) == h;
    }
  }

  /** Percent-decoding to bytes: each `%hh` group gives the byte `hh`. */
  function Unescape(t: string): seq<int>
    decreases |t|
  {
    if |t| < 3 then [] else [HexValue(t[1]) * 16 + HexValue(t[2])] + Unescape(t[3..])
  }

  /** The character codes of a string. */
  function Codes(s: string): (r: seq<int>)
    ensures |r| == |s| && forall i :: 0 <= i < |s| ==> r[i] == s[i] as int
  {
    seq(|s|, i requires 0 <= i < |s| => s[i] as int)
  }

  /** `atob` yields a binary string: every code is below 256. */
  predicate Binary(s: string) {
    forall i :: 0 <= i < |s| ==> s[i] as int < 256
  }

  /**
   * On a binary string the escape is exact percent-encoding: decoding the
   * groups gives back every byte, so `decodeURIComponent` sees the bytes
   * `atob` produced, read as UTF-8.
   */
  lemma {:induction false} EscapeRoundTrip(s: string)
    requires Binary(s)
    ensures Unescape(EscapeAll(s)) == Codes(s)
    decreases |s|
  {
    if s != [] {
      var c := s[0];
      EscapeDigits(c);
      HexDigitValue(c as int / 16);
      HexDigitValue(c as int % 16);
      var t := EscapeAll(s);
      assert t[..3] == Escape(c);
      assert t[3..] == EscapeAll(s[1..]);
      EscapeRoundTrip(s[1..]);
      assert Codes(s) == [c as int] + Codes(s[1..]);
    }
  }

  /** Different binary strings escape differently. */
  lemma EscapeInjective(s: string, u: string)
    requires Binary(s) && Binary(u) && EscapeAll(s) == EscapeAll(u)
    ensures s == u
  {
    EscapeRoundTrip(s);
    EscapeRoundTrip(u);
    assert |s| == |u|;
    forall i | 0 <= i < |s| ensures s[i] == u[i] {
      assert Codes(s)[i] == Codes(u)[i];
    }
  }

  // ---------------------------------------------------------------- the fragment

  /** What the page holds: `chatData`, `seedData`, `error` and `document.title`. */
  datatype Page<J> = Page(chatData: Option<J>, seedData: Option<J>, error: Option<string>, title: string)

  /**
   * The library calls the decode goes through; `None` stands for a thrown
   * error. `truthy` is JavaScript truthiness of a parsed value: `0`, `false`
   * and `""` parse but are falsy.
   */
  datatype Decoders<!J> = Decoders(atob: string -> Option<string>, decodeUri: string -> Option<string>,
                                  parse: string -> Option<J>, titleOf: J -> string, truthy: J -> bool)

  /** `JSON.parse(decodeURIComponent(escape(atob(data))))`, failing if any step throws. */
  function Payload<J>(data: string, lib: Decoders<J>): Option<J> {
    match lib.atob(data)
    case None => None
    case Some(bin) =>
      match lib.decodeUri(EscapeAll(bin))
      case None => None
      case Some(json) => lib.parse(json)
  }

  /** What a fragment asks for. */
  datatype Fragment = ChatLink(data: string) | SeedLink(data: string) | NoLink

  /** The prefix tests of `handleDecode`: the data is the text after the six-character prefix. */
  function Classify(hash: string): (r: Fragment)
    ensures r.ChatLink? <==> StartsWith(hash, DATA_PREFIX)
    ensures r.SeedLink? <==> StartsWith(hash, SEED_PREFIX)
    ensures r.ChatLink? ==> DATA_PREFIX + r.data == hash
    ensures r.SeedLink? ==> SEED_PREFIX + r.data == hash
  {
    assert StartsWith(hash, DATA_PREFIX) ==> hash[1] == DATA_PREFIX[1] == 'd';
    assert StartsWith(hash, SEED_PREFIX) ==> hash[1] == SEED_PREFIX[1] == 's';
    if StartsWith(hash, DATA_PREFIX) then ChatLink(hash[6..])
    else if StartsWith(hash, SEED_PREFIX) then SeedLink(hash[6..])
    else NoLink
  }

  /**
   * `handleDecode`, run on load and on every `hashchange`. A chat link that
   * decodes shows the chat, drops any seed and, when the chat has a title,
   * names the tab after it; a seed link that decodes shows the seed and drops
   * any chat; a failure sets the error for its kind of link, and a fragment
   * that is neither sets the missing-data error. The error is never cleared.
   */
  function Decode<J>(p: Page<J>, hash: string, lib: Decoders<J>): (r: Page<J>)
    ensures match Classify(hash)
      case NoLink => r == p.(error := Some(NO_DATA))
      case ChatLink(data) =>
        (match Payload(data, lib)
         case None => r == p.(error := Some(BAD_SHARE))
         case Some(j) =>
           && r.chatData == Some(j) && r.seedData.None? && r.error == p.error
           && r.title == (if lib.titleOf(j) != "" then lib.titleOf(j) + TITLE_SUFFIX else p.title))
      case SeedLink(data) =>
        match Payload(data, lib)
        case None => r == p.(error := Some(BAD_SEED))
        case Some(j) => r == p.(seedData := Some(j), chatData := None, title := SEED_TITLE)
  {
    match Classify(hash)
    case NoLink => p.(error := Some(NO_DATA))
    case ChatLink(data) =>
      (match Payload(data, lib)
       case None => p.(error := Some(BAD_SHARE))
       case Some(j) =>
         var p' := p.(chatData := Some(j), seedData := None);
         if lib.titleOf(j) != "" then p'.(title := lib.titleOf(j) + TITLE_SUFFIX) else p')
    case SeedLink(data) =>
      match Payload(data, lib)
      case None => p.(error := Some(BAD_SEED))
      case Some(j) => p.(seedData := Some(j), chatData := None, title := SEED_TITLE)
  }

  /** The screen the page draws: the error first, then a truthy seed, then a truthy chat, else a spinner. */
  datatype Screen<J> = Oops(message: string) | StartChat(seed: J) | Loading | Transcript(chat: J)

  function View<J>(p: Page<J>, truthy: J -> bool): (r: Screen<J>)
    ensures r.Oops? <==> p.error.Some?
    ensures r.StartChat? <==> p.error.None? && p.seedData.Some? && truthy(p.seedData.value)
    ensures r.StartChat? ==> r.seed == p.seedData.value
    ensures r.Transcript? ==> p.chatData == Some(r.chat) && truthy(r.chat)
    ensures r.Loading? <==> p.error.None? && (p.seedData.None? || !truthy(p.seedData.value))
                                         && (p.chatData.None? || !truthy(p.chatData.value))
  {
    if p.error.Some? then Oops(p.error.value)
    else if p.seedData.Some? && truthy(p.seedData.value) then StartChat(p.seedData.value)
    else if p.chatData.Some? && truthy(p.chatData.value) then Transcript(p.chatData.value)
    else Loading
  }

  /** A decoded page never holds both a chat and a seed from the last fragment. */
  lemma DecodeKeepsOne<J>(p: Page<J>, hash: string, lib: Decoders<J>)
    requires p.chatData.None? || p.seedData.None?
    ensures var r := Decode(p, hash, lib); r.chatData.None? || r.seedData.None?
  {
  }

  /**
   * On a fresh page, a good chat link shows the chat and a good seed link the
   * seed page; a link whose payload is falsy leaves the spinner up.
   */
  lemma FreshPageShows<J>(hash: string, lib: Decoders<J>, title: string)
    ensures var r := View(Decode(Page(None, None, None, title), hash, lib), lib.truthy);
      match Classify(hash)
      case NoLink => r == Oops(NO_DATA)
      case ChatLink(data) =>
        (Payload(data, lib).Some? ==> r == if lib.truthy(Payload(data, lib).value) then Transcript(Payload(data, lib).value) else Loading)
        && (Payload(data, lib).None? ==> r == Oops(BAD_SHARE))
      case SeedLink(data) =>
        (Payload(data, lib).Some? ==> r == if lib.truthy(Payload(data, lib).value) then StartChat(Payload(data, lib).value) else Loading)
        && (Payload(data, lib).None? ==> r == Oops(BAD_SEED))
  {
  }

  /**
   * The listener is there so a link pasted later is shown, but once an error
   * is set a later good link still leaves the error screen up.
   */
  lemma StickyError<J>(p: Page<J>, hash: string, lib: Decoders<J>)
    requires p.error.Some?
    ensures View(Decode(p, hash, lib), lib.truthy).Oops?
  {
  }

  /** `handleDecode` as the listener evidently means it: a link that decodes clears an earlier error. */
  function DecodeCorrected<J>(p: Page<J>, hash: string, lib: Decoders<J>): (r: Page<J>)
    ensures r.error.None? <==> match Classify(hash)
      case NoLink => false
      case ChatLink(data) => Payload(data, lib).Some?
      case SeedLink(data) => Payload(data, lib).Some?
    ensures r.error.Some? ==> r == Decode(p, hash, lib)
    ensures r.error.None? ==> r == Decode(p, hash, lib).(error := None)
  {
    var r := Decode(p, hash, lib);
    match Classify(hash)
    case NoLink => r
    case ChatLink(data) => if Payload(data, lib).Some? then r.(error := None) else r
    case SeedLink(data) => if Payload(data, lib).Some? then r.(error := None) else r
  }

  /** With the correction, the last fragment alone decides the screen, whatever came before. */
  lemma LastLinkDecides<J>(p: Page<J>, q: Page<J>, hash: string, lib: Decoders<J>)
    requires p.chatData.None? || p.seedData.None?
    requires q.chatData.None? || q.seedData.None?
    ensures Classify(hash).ChatLink? && Payload(Classify(hash).data, lib).Some? && lib.truthy(Payload(Classify(hash).data, lib).value) ==>
      View(DecodeCorrected(p, hash, lib), lib.truthy) == View(DecodeCorrected(q, hash, lib), lib.truthy)
        == Transcript(Payload(Classify(hash).data, lib).value)
    ensures Classify(hash).SeedLink? && Payload(Classify(hash).data, lib).Some? && lib.truthy(Payload(Classify(hash).data, lib).value) ==>
      View(DecodeCorrected(p, hash, lib), lib.truthy) == View(DecodeCorrected(q, hash, lib), lib.truthy)
        == StartChat(Payload(Classify(hash).data, lib).value)
  {
  }

  /** A pasted link after an error: as written the error stays, corrected the chat shows. */
  lemma StickyErrorWitness<J>(j: J)
    ensures var lib := Decoders(s => Some(s), s => Some(s), s => Some(j), (x: J) => "", (x: J) => true);
      var p := Decode(Page(None, None, None, ""), "#x", lib);
      && View(Decode(p, "#data=e30", lib), lib.truthy) == Oops(NO_DATA)
      && View(DecodeCorrected(p, "#data=e30", lib), lib.truthy) == Transcript(j)
  {
    var lib := Decoders(s => Some(s), s => Some(s), s => Some(j), (x: J) => "", (x: J) => true);
    assert !StartsWith("#x", DATA_PREFIX) && !StartsWith("#x", SEED_PREFIX);
    assert StartsWith("#data=e30", DATA_PREFIX);
  }
}
