// The topics under which telemetry is published, the subscriptions that the
// ground tools build, and exactly which published messages each subscription
// receives. A subscriber receives a message when its subscription text is a
// prefix of the message's topic.
module Topics {
  import opened Text

  type byte = b: int | 0 <= b < 0x100

  // ----- published topics -----

  function SpacecraftName(n: nat): string {
    "Spacecraft" + Decimal(n)
  }

  /** Python's `hex`. */
  function Hex(n: nat): string {
    "0x" + Numeral(16, n)
  }

  /** The big-endian first word of the packet primary header. */
  function PacketId(datagram: seq<byte>): (id: nat)
    requires |datagram| >= 2
    ensures id < 0x1_0000
    ensures id / 0x100 == datagram[0] && id % 0x100 == datagram[1]
  {
    (datagram[0] as nat) * 0x100 + datagram[1]
  }

  function Topic(name: string, id: nat): string {
    "GroundSystem." + name + ".TelemetryPackets." + Hex(id)
  }

  /**
   * A topic names a datagram's sender and its packet identifier: the sender's number in
   * decimal, and in hexadecimal the number whose two bytes the datagram starts with.
   */
  ghost predicate NamesPacket(topic: string, number: nat, data: seq<byte>)
    requires |data| >= 2
  {
    exists d, h ::
      && IsNumeral(10, d, number) && IsNumeral(16, h, data[0] as nat * 256 + data[1] as nat)
      && topic == "GroundSystem.Spacecraft" + d + ".TelemetryPackets.0x" + h
  }

  lemma TopicNamesPacket(number: nat, data: seq<byte>)
    requires |data| >= 2
    ensures NamesPacket(Topic(SpacecraftName(number), PacketId(data)), number, data)
  {
    var d, h := Decimal(number), Numeral(16, PacketId(data));
    NumeralIs(10, number);
    NumeralIs(16, PacketId(data));
    TopicWords(d, h);
  }

  lemma TopicWords(d: string, h: string)
    ensures "GroundSystem." + ("Spacecraft" + d) + ".TelemetryPackets." + ("0x" + h) ==
            "GroundSystem.Spacecraft" + d + ".TelemetryPackets.0x" + h
  {
    assert "GroundSystem.Spacecraft" == "GroundSystem." + "Spacecraft";
    assert ".TelemetryPackets.0x" == ".TelemetryPackets." + "0x";
  }

  // ----- texts cut at a mark -----

  ghost predicate Lacks(s: string, c: char) {
    forall i :: 0 <= i < |s| ==> s[i] != c
  }

  lemma NumeralsLackMarks(base: nat, n: nat)
    requires IsBase(base)
    ensures Lacks(Numeral(base, n), '.') && Lacks(Numeral(base, n), '\'')
  {
  }

  /** Text without a mark, up to the mark, is determined by any text that starts with it. */
  lemma CutAtMark(a: string, b: string, c: char, x: string, y: string)
    requires Lacks(a, c) && Lacks(b, c)
    ensures a + [c] + x <= b + [c] + y <==> a == b && x <= y
  {
    var s, t := a + [c] + x, b + [c] + y;
    if s <= t {
      assert s[|a|] == c && t[|b|] == c;
      assert forall i :: 0 <= i < |a| ==> s[i] == a[i];
      assert forall i :: 0 <= i < |b| ==> t[i] == b[i];
      assert a == s[..|a|] == t[..|a|] == b;
      assert x == s[|a| + 1..] && y == t[|a| + 1..];
    }
  }

  lemma CommonStart(p: string, x: string, y: string)
    ensures p + x <= p + y <==> x <= y
  {
    assert (p + x)[|p|..] == x && (p + y)[|p|..] == y;
  }

  // ----- the telemetry subscription -----

  const ALL: string := "All"

  /** What the telemetry system subscribes to for a selected spacecraft, its name taken as text. */
  function Subscription(name: string): string {
    if name == ALL then "GroundSystem" else "GroundSystem." + name + ".TelemetryPackets"
  }

  lemma TopicShape(n: nat, id: nat)
    ensures Topic(SpacecraftName(n), id) == "GroundSystem.Spacecraft" +
            (Decimal(n) + ['.'] + ("TelemetryPackets." + Hex(id)))
  {
  }

  lemma SubscriptionShape(n: nat)
    ensures Subscription(SpacecraftName(n)) == "GroundSystem.Spacecraft" + (Decimal(n) + ['.'] + "TelemetryPackets")
  {
    assert SpacecraftName(n)[0] == 'S';
  }

  /** A text that names spacecraft n is a prefix only of texts that name n and go on alike. */
  lemma SpacecraftCut(n: nat, m: nat, x: string, y: string)
    ensures "GroundSystem.Spacecraft" + (Decimal(n) + ['.'] + x) <=
            "GroundSystem.Spacecraft" + (Decimal(m) + ['.'] + y) <==>
            n == m && x <= y
  {
    CommonStart("GroundSystem.Spacecraft", Decimal(n) + ['.'] + x, Decimal(m) + ['.'] + y);
    NumeralsLackMarks(10, n);
    NumeralsLackMarks(10, m);
    CutAtMark(Decimal(n), Decimal(m), '.', x, y);
    if Decimal(n) == Decimal(m) { NumeralInjective(10, n, m); }
  }

  /**
   * Topic isolation: the subscription for spacecraft n receives exactly the messages of
   * spacecraft n, whatever their packet identifier, even if the numeral of n is a prefix
   * of another spacecraft's.
   */
  lemma TopicIsolation(n: nat, m: nat, id: nat)
    ensures Subscription(SpacecraftName(n)) <= Topic(SpacecraftName(m), id) <==> n == m
  {
    SubscriptionShape(n);
    TopicShape(m, id);
    SpacecraftCut(n, m, "TelemetryPackets", "TelemetryPackets." + Hex(id));
  }

  /** The subscription for all spacecraft receives every message. */
  lemma AllReceivesEverything(name: string, id: nat)
    ensures Subscription(ALL) <= Topic(name, id)
  {
    assert "GroundSystem." == "GroundSystem" + ".";
  }

  /** A topic determines the spacecraft and the packet identifier. */
  lemma TopicDecodable(n: nat, m: nat, i: nat, j: nat)
    requires Topic(SpacecraftName(n), i) == Topic(SpacecraftName(m), j)
    ensures n == m && i == j
  {
    TopicShape(n, i);
    TopicShape(m, j);
    var x, y := "TelemetryPackets." + Hex(i), "TelemetryPackets." + Hex(j);
    SpacecraftCut(n, m, x, y);
    SpacecraftCut(m, n, y, x);
    assert Hex(i) == x[|"TelemetryPackets."|..] && Hex(j) == y[|"TelemetryPackets."|..];
    assert Numeral(16, i) == Hex(i)[2..] && Numeral(16, j) == Hex(j)[2..];
    NumeralInjective(16, i, j);
  }

  /** Two datagrams published under the same topic start with the same two bytes. */
  lemma SameTopicSameHeader(n: nat, m: nat, a: seq<byte>, b: seq<byte>)
    requires |a| >= 2 && |b| >= 2
    requires Topic(SpacecraftName(n), PacketId(a)) == Topic(SpacecraftName(m), PacketId(b))
    ensures n == m && a[..2] == b[..2]
  {
    TopicDecodable(n, m, PacketId(a), PacketId(b));
  }

  // ----- the file manager subscription, its name taken as text -----

  /** What the window passes to the file manager, which subscribes to it: no mark follows the name. */
  function FileSubscription(name: string): string {
    "GroundSystem." + name
  }

  /**
   * If names were decoded: exactly which spacecraft's messages the file manager of
   * spacecraft n would receive: its own, and those of every spacecraft whose number
   * starts with the digits of n.
   */
  lemma FileSubscriptionReaches(n: nat, m: nat, id: nat)
    ensures FileSubscription(SpacecraftName(n)) <= Topic(SpacecraftName(m), id) <==>
            n == m || (n != 0 && IsLeadingPart(10, n, m))
  {
    var rest := "TelemetryPackets." + Hex(id);
    TopicShape(m, id);
    assert FileSubscription(SpacecraftName(n)) == "GroundSystem.Spacecraft" + Decimal(n);
    CommonStart("GroundSystem.Spacecraft", Decimal(n), Decimal(m) + ['.'] + rest);
    NumeralsLackMarks(10, n);
    PrefixBeforeMark(Decimal(n), Decimal(m), '.', rest);
    NumeralPrefix(10, n, m);
  }

  lemma PrefixBeforeMark(a: string, b: string, c: char, y: string)
    requires Lacks(a, c)
    ensures a <= b + [c] + y <==> a <= b
  {
    var t := b + [c] + y;
    if a <= t {
      assert t[|b|] == c;
      assert forall i :: 0 <= i < |a| ==> t[i] == a[i];
      assert a == t[..|a|] == b[..|a|];
    }
  }

  /** In particular the text for spacecraft 1 would also match spacecraft 12's messages. */
  lemma FileSubscriptionLeaks(id: nat)
    ensures FileSubscription(SpacecraftName(1)) <= Topic(SpacecraftName(12), id)
  {
    assert DropDigits(10, 1, 0) == 1;
    assert DropDigits(10, 12, 1) == 1;
    FileSubscriptionReaches(1, 12, id);
  }

  // ----- telemetry pages -----

  /** What follows the first mark, which the page receiver keeps of its subscription. */
  function AfterFirst(s: string, c: char): Option<string> {
    if s == "" then None else if s[0] == c then Some(s[1..]) else AfterFirst(s[1..], c)
  }

  lemma {:induction false} AfterFirstMark(a: string, c: char, x: string)
    requires Lacks(a, c)
    ensures AfterFirst(a + [c] + x, c) == Some(x)
  {
    var s := a + [c] + x;
    if a == "" {
      assert s[0] == c && s[1..] == x;
    } else {
      AfterFirstMark(a[1..], c, x);
      assert s[0] == a[0] && s[1..] == a[1..] + [c] + x;
    }
  }

  /**
   * The topic prefix of a telemetry page: the telemetry system appends the page's packet
   * identifier to its own subscription, and the page puts what follows the first mark
   * behind a fixed spacecraft name.
   */
  function PageSubscription(subscription: string, appId: nat): Option<string> {
    var tail := AfterFirst(subscription + "." + Hex(appId), '.');
    if tail.None? then None else Some("GroundSystem.Spacecraft1.TelemetryPackets." + tail.value)
  }

  lemma PageOfAllText(appId: nat)
    ensures PageSubscription(Subscription(ALL), appId) ==
            Some("GroundSystem.Spacecraft1.TelemetryPackets." + Hex(appId))
  {
    assert Lacks("GroundSystem", '.');
    AfterFirstMark("GroundSystem", '.', Hex(appId));
    assert "GroundSystem" + "." + Hex(appId) == "GroundSystem" + ['.'] + Hex(appId);
  }

  lemma PageShape(tail: string)
    ensures "GroundSystem.Spacecraft1.TelemetryPackets." + tail ==
            "GroundSystem.Spacecraft" + (Decimal(1) + ['.'] + ("TelemetryPackets." + tail))
  {
    assert Decimal(1) == "1";
    assert "GroundSystem.Spacecraft1.TelemetryPackets." == "GroundSystem.Spacecraft" + "1.TelemetryPackets.";
    assert "1.TelemetryPackets." == "1" + ['.'] + "TelemetryPackets.";
  }

  /** What a page with the given tail receives. */
  lemma PageReaches(tail: string, n: nat, id: nat)
    ensures "GroundSystem.Spacecraft1.TelemetryPackets." + tail <= Topic(SpacecraftName(n), id) <==>
            n == 1 && tail <= Hex(id)
  {
    PageShape(tail);
    TopicShape(n, id);
    SpacecraftCut(1, n, "TelemetryPackets." + tail, "TelemetryPackets." + Hex(id));
    CommonStart("TelemetryPackets.", tail, Hex(id));
  }

  /**
   * A page opened with all spacecraft selected receives spacecraft 1's packets only, and
   * of these the ones whose identifier starts with the page's hexadecimal digits.
   */
  lemma PageOfAllReaches(appId: nat, n: nat, id: nat)
    ensures var p := PageSubscription(Subscription(ALL), appId);
            p.Some? && (p.value <= Topic(SpacecraftName(n), id) <==>
                        n == 1 && (appId == id || (appId != 0 && IsLeadingPart(16, appId, id))))
  {
    PageOfAllText(appId);
    PageReaches(Hex(appId), n, id);
    CommonStart("0x", Numeral(16, appId), Numeral(16, id));
    NumeralPrefix(16, appId, id);
  }

  /** With four hexadecimal digits in the page's identifier, it receives exactly its own packets. */
  lemma FullWidthPageIsExact(appId: nat, n: nat, id: nat)
    requires 0x1000 <= appId && id < 0x1_0000
    ensures PageSubscription(Subscription(ALL), appId).Some?
    ensures PageSubscription(Subscription(ALL), appId).value <= Topic(SpacecraftName(n), id) <==> n == 1 && appId == id
  {
    PageOfAllReaches(appId, n, id);
    if IsLeadingPart(16, appId, id) {
      var k: nat :| DropDigits(16, id, k) == appId;
      if k > 0 { DroppedIsSmall(id / 16, k - 1); }
    }
  }

  lemma {:induction false} DroppedIsSmall(n: nat, k: nat)
    ensures DropDigits(16, n, k) <= n
    decreases k
  {
    if k > 0 { DroppedIsSmall(n / 16, k - 1); }
  }

  lemma PageOfOneText(selected: nat, appId: nat)
    ensures PageSubscription(Subscription(SpacecraftName(selected)), appId) ==
            Some("GroundSystem.Spacecraft1.TelemetryPackets." +
                 (SpacecraftName(selected) + ".TelemetryPackets." + Hex(appId)))
  {
    var tail := SpacecraftName(selected) + ".TelemetryPackets." + Hex(appId);
    assert SpacecraftName(selected)[0] == 'S';
    assert Lacks("GroundSystem", '.');
    assert "GroundSystem." == "GroundSystem" + ['.'];
    assert ".TelemetryPackets." == ".TelemetryPackets" + ".";
    assert Subscription(SpacecraftName(selected)) + "." + Hex(appId) == "GroundSystem" + ['.'] + tail;
    AfterFirstMark("GroundSystem", '.', tail);
  }

  /** A page opened with one spacecraft selected, its name taken as text, receives nothing at all. */
  lemma PageOfOneReachesNothing(selected: nat, appId: nat, n: nat, id: nat)
    ensures var p := PageSubscription(Subscription(SpacecraftName(selected)), appId);
            p.Some? && !(p.value <= Topic(SpacecraftName(n), id))
  {
    var tail := SpacecraftName(selected) + ".TelemetryPackets." + Hex(appId);
    PageOfOneText(selected, appId);
    PageReaches(tail, n, id);
    assert tail[0] == 'S' && Hex(id)[0] == '0';
  }

  // ----- names as the main window really holds them -----

  /** A name as the main window holds it: the initial entry is text, signalled ones are bytes. */
  datatype Name = Chars(text: string) | Bytes(text: string)

  /** Python's rendering of a name inside a formatted string. */
  function Rendered(name: Name): string {
    match name
    case Chars(text) => text
    case Bytes(text) => "b'" + text + "'"
  }

  /** Shell-style splitting of one argument: single quotes go, what they enclose stays. */
  function Unquoted(s: string, open: bool): Option<string> {
    if s == "" then if open then None else Some("")
    else
      var rest := Unquoted(s[1..], if s[0] == '\'' then !open else open);
      if rest.None? then None else Some(if s[0] == '\'' then rest.value else [s[0]] + rest.value)
  }

  /** The subscription that reaches the telemetry system's command line. */
  function LaunchedSubscription(name: Name): Option<string> {
    if name == Chars(ALL) then Some("GroundSystem")
    else Unquoted("GroundSystem." + Rendered(name) + ".TelemetryPackets", false)
  }

  lemma {:induction false} UnquotedPlain(a: string, open: bool, x: string)
    requires Lacks(a, '\'')
    ensures Unquoted(a + x, open) ==
            if Unquoted(x, open).None? then None else Some(a + Unquoted(x, open).value)
    decreases |a|
  {
    if a == "" {
      assert a + x == x;
      if Unquoted(x, open).Some? { assert a + Unquoted(x, open).value == Unquoted(x, open).value; }
    } else {
      UnquotedPlain(a[1..], open, x);
      assert (a + x)[0] == a[0] && (a + x)[1..] == a[1..] + x;
      if Unquoted(x, open).Some? {
        assert [a[0]] + (a[1..] + Unquoted(x, open).value) == a + Unquoted(x, open).value;
      }
    }
  }

  lemma UnquotedQuote(open: bool, x: string)
    ensures Unquoted("'" + x, open) == Unquoted(x, !open)
  {
    assert ("'" + x)[0] == '\'' && ("'" + x)[1..] == x;
  }

  /** One quoted part between two plain ones. */
  lemma UnquotedMiddle(a: string, b: string, c: string)
    requires Lacks(a, '\'') && Lacks(b, '\'') && Lacks(c, '\'')
    ensures Unquoted(a + ("'" + (b + ("'" + c))), false) == Some(a + (b + c))
  {
    UnquotedPlain(c, false, "");
    assert c + "" == c;
    UnquotedQuote(true, c);
    UnquotedPlain(b, true, "'" + c);
    UnquotedQuote(false, b + ("'" + c));
    UnquotedPlain(a, false, "'" + (b + ("'" + c)));
  }

  lemma QuotedNameText(name: string)
    ensures "GroundSystem." + Rendered(Bytes(name)) + ".TelemetryPackets" ==
            "GroundSystem.b" + ("'" + (name + ("'" + ".TelemetryPackets")))
  {
    assert "b'" == "b" + "'";
    assert "GroundSystem.b" == "GroundSystem." + "b";
  }

  lemma LaunchedSubscriptionText(n: nat)
    ensures LaunchedSubscription(Bytes(SpacecraftName(n))) ==
            Some("GroundSystem.b" + (SpacecraftName(n) + ".TelemetryPackets"))
  {
    var name := SpacecraftName(n);
    NumeralsLackMarks(10, n);
    assert Lacks("Spacecraft", '\'') && Lacks(name, '\'') && Lacks("GroundSystem.b", '\'') &&
           Lacks(".TelemetryPackets", '\'');
    QuotedNameText(name);
    UnquotedMiddle("GroundSystem.b", name, ".TelemetryPackets");
  }

  /** The subscriptions as texts, for the initial entry and for a spacecraft. */
  lemma SubscriptionTexts(n: nat)
    ensures Subscription("All") == "GroundSystem" && LaunchedSubscription(Chars("All")) == Some("GroundSystem")
    ensures Subscription(SpacecraftName(n)) == "GroundSystem.Spacecraft" + (Decimal(n) + ['.'] + "TelemetryPackets")
    ensures LaunchedSubscription(Bytes(SpacecraftName(n))) ==
            Some("GroundSystem.b" + ("Spacecraft" + Decimal(n) + ".TelemetryPackets"))
  {
    SubscriptionShape(n);
    LaunchedSubscriptionText(n);
  }

  /**
   * Exactly when the launched subscription works: with a name in bytes, as every signalled
   * spacecraft has, it receives no message of any spacecraft; as text it would be isolated.
   */
  lemma LaunchedReachesIff(name: Name, n: nat, m: nat, id: nat)
    requires name == Chars(ALL) || name == Bytes(SpacecraftName(n))
    ensures var s := LaunchedSubscription(name);
            s.Some? && (s.value <= Topic(SpacecraftName(m), id) <==> name.Chars?)
  {
    if name.Chars? {
      AllReceivesEverything(SpacecraftName(m), id);
    } else {
      LaunchedSubscriptionText(n);
      var s, t := LaunchedSubscription(name).value, Topic(SpacecraftName(m), id);
      assert s[13] == 'b';
      assert t[13] == 'S' by { TopicShape(m, id); assert "GroundSystem.Spacecraft"[13] == 'S'; }
    }
  }

  /** The same holds of the page that the subscription really launched leads to. */
  lemma PageOfLaunchedReachesNothing(selected: nat, appId: nat, n: nat, id: nat)
    ensures var s := LaunchedSubscription(Bytes(SpacecraftName(selected)));
            && s.Some? && PageSubscription(s.value, appId).Some?
            && !(PageSubscription(s.value, appId).value <= Topic(SpacecraftName(n), id))
  {
    var tail := "bSpacecraft" + (Decimal(selected) + (".TelemetryPackets." + Hex(appId)));
    LaunchedSubscriptionText(selected);
    PageOfLaunchedText(selected, appId);
    PageReaches(tail, n, id);
    assert tail[0] == 'b' && Hex(id)[0] == '0';
  }

  lemma PageOfLaunchedText(selected: nat, appId: nat)
    ensures PageSubscription("GroundSystem.b" + (SpacecraftName(selected) + ".TelemetryPackets"), appId) ==
            Some("GroundSystem.Spacecraft1.TelemetryPackets." +
                 ("bSpacecraft" + (Decimal(selected) + (".TelemetryPackets." + Hex(appId)))))
  {
    var tail := "bSpacecraft" + (Decimal(selected) + (".TelemetryPackets." + Hex(appId)));
    assert Lacks("GroundSystem", '.');
    assert "GroundSystem.b" == "GroundSystem" + ['.'] + "b" && "bSpacecraft" == "b" + "Spacecraft";
    assert ".TelemetryPackets." == ".TelemetryPackets" + ".";
    assert "GroundSystem.b" + (SpacecraftName(selected) + ".TelemetryPackets") + "." + Hex(appId) ==
           "GroundSystem" + ['.'] + tail;
    AfterFirstMark("GroundSystem", '.', tail);
  }

  /** The file manager's argument, which no shell-style splitting touches; none without a selected spacecraft. */
  function LaunchedFileSubscription(name: Name): Option<string> {
    if name == Chars(ALL) then None else Some(FileSubscription(Rendered(name)))
  }

  /** For a spacecraft, that argument is the quoted rendering of its name in bytes. */
  lemma LaunchedFileSubscriptionText(n: nat)
    ensures LaunchedFileSubscription(Bytes(SpacecraftName(n))) == Some("GroundSystem.b'Spacecraft" + Decimal(n) + "'")
  {
    var d := Decimal(n);
    assert "GroundSystem.b'Spacecraft" == "GroundSystem." + ("b'" + "Spacecraft");
    assert "GroundSystem." + ("b'" + ("Spacecraft" + d) + "'") == "GroundSystem." + ("b'" + "Spacecraft") + d + "'";
  }

  /** The file manager opens for every signalled spacecraft, and then receives no message of any spacecraft. */
  lemma LaunchedFileManagerHearsNothing(name: Name, n: nat, m: nat, id: nat)
    requires name == Chars(ALL) || name == Bytes(SpacecraftName(n))
    ensures var s := LaunchedFileSubscription(name);
            && (s.Some? <==> name.Bytes?)
            && (s.Some? ==> !(s.value <= Topic(SpacecraftName(m), id)))
  {
    if name.Bytes? {
      var s, t := LaunchedFileSubscription(name).value, Topic(SpacecraftName(m), id);
      assert Rendered(name)[0] == 'b';
      assert s[13] == 'b';
      assert t[13] == 'S' by { TopicShape(m, id); assert "GroundSystem.Spacecraft"[13] == 'S'; }
    }
  }
}
