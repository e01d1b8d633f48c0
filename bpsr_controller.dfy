/** The legacy BPSR group embed: four lists of mentions (DPS, Healer, Tank and
    Waiting) under a title and a time line, one button per list, and the
    parser that rebuilds a controller from a posted embed. */
module BpsrController {
  import opened Wrappers
  import opened Text
  import TeamRender

  // ---------------------------------------------------------------------------
  // State
  // ---------------------------------------------------------------------------

  /** The group leader shown in the embed's author line. */
  datatype Author = Author(name: string, iconUrl: string)

  /** One value for each of the four sections, in the order `button_clicked`
      visits them and the buttons are laid out: DPS, healer, tank, waiting. */
  datatype PerSection<T> = PerSection(dps: T, healer: T, tank: T, waiting: T)
  {
    function Get(k: nat): T
      requires k < 4
    {
      if k == 0 then dps else if k == 1 then healer else if k == 2 then tank else waiting
    }

    function Set(k: nat, s: T): (r: PerSection<T>)
      requires k < 4
      ensures r.Get(k) == s
      ensures forall j :: 0 <= j < 4 && j != k ==> r.Get(j) == Get(j)
    {
      if k == 0 then this.(dps := s) else if k == 1 then this.(healer := s)
      else if k == 2 then this.(tank := s) else this.(waiting := s)
    }
  }

  /** The four member lists. */
  type Lists = PerSection<seq<string>>

  const NoLists: Lists := PerSection([], [], [], [])

  /** `(dps_limit, healer_limit, tank_limit)`; the waiting list has none. */
  datatype Limits = Limits(dps: int, healer: int, tank: int)

  /** The custom ids of the four buttons, in list order. */
  const ButtonIds: seq<string> := ["dps", "healer", "tank", "waiting"]

  /** `len(lst) < limit` for the k-th list, where the waiting list's limit is
      `float("inf")`. */
  predicate HasRoom(ls: Lists, limits: Limits, k: nat)
    requires k < 4
  {
    match k
    case 0 => |ls.dps| < limits.dps
    case 1 => |ls.healer| < limits.healer
    case 2 => |ls.tank| < limits.tank
    case _ => true
  }

  /** How often `m` occurs over all four lists. */
  function Occurrences(ls: Lists, m: string): nat {
    multiset(ls.dps)[m] + multiset(ls.healer)[m] + multiset(ls.tank)[m] + multiset(ls.waiting)[m]
  }

  /** No mention is in two lists, nor twice in one. */
  ghost predicate AtMostOnce(ls: Lists) {
    forall m :: Occurrences(ls, m) <= 1
  }

  /** No capped list is longer than its limit. */
  predicate WithinLimits(ls: Lists, limits: Limits) {
    |ls.dps| <= limits.dps && |ls.healer| <= limits.healer && |ls.tank| <= limits.tank
  }

  // ---------------------------------------------------------------------------
  // button_clicked, as a function of the lists
  // ---------------------------------------------------------------------------

  /** The first list that holds `m`. */
  function Holder(ls: Lists, m: string): (r: Option<nat>)
    ensures r.Some? ==> r.value < 4 && m in ls.Get(r.value)
                        && forall j :: 0 <= j < r.value ==> m !in ls.Get(j)
    ensures r.None? <==> Occurrences(ls, m) == 0
  {
    if m in ls.dps then Some(0) else if m in ls.healer then Some(1)
    else if m in ls.tank then Some(2) else if m in ls.waiting then Some(3) else None
  }

  /** The list a button id names. */
  function ButtonIndex(button: string): (r: Option<nat>)
    ensures r.Some? <==> button in ButtonIds
    ensures r.Some? ==> r.value < 4 && ButtonIds[r.value] == button
  {
    if button == "dps" then Some(0) else if button == "healer" then Some(1)
    else if button == "tank" then Some(2) else if button == "waiting" then Some(3) else None
  }

  /** `list.remove(x)`: drops the first occurrence. */
  function RemoveFirst(s: seq<string>, x: string): (r: seq<string>)
    requires x in s
    ensures multiset(r) == multiset(s) - multiset{x}
    ensures |r| == |s| - 1
  {
    if s[0] == x then
      assert s == [s[0]] + s[1..];
      s[1..]
    else
      var r := [s[0]] + RemoveFirst(s[1..], x);
      assert s == [s[0]] + s[1..];
      r
  }

  /** The position of the first occurrence of `x` in `s`. */
  function FirstIndex(s: seq<string>, x: string): (i: nat)
    requires x in s
    ensures i < |s| && s[i] == x && x !in s[..i]
  {
    if s[0] == x then 0
    else
      assert s == [s[0]] + s[1..];
      var j := FirstIndex(s[1..], x);
      assert s[..j + 1] == [s[0]] + s[1..][..j];
      j + 1
  }

  /** The occurrence `RemoveFirst` drops is the first one, and the other
      entries keep their order. */
  lemma {:induction false} RemoveFirstAt(s: seq<string>, x: string)
    requires x in s
    ensures RemoveFirst(s, x) == s[..FirstIndex(s, x)] + s[FirstIndex(s, x) + 1..]
  {
    assert s == [s[0]] + s[1..];
    if s[0] == x {
      assert s[..0] + s[1..] == s[1..];
    } else {
      var t := s[1..];
      var j := FirstIndex(t, x);
      assert FirstIndex(s, x) == j + 1;
      RemoveFirstAt(t, x);
      assert s[..j + 1] == [s[0]] + t[..j];
      assert s[j + 2..] == t[j + 1..];
      calc {
        RemoveFirst(s, x);
        [s[0]] + RemoveFirst(t, x);
        [s[0]] + (t[..j] + t[j + 1..]);
        ([s[0]] + t[..j]) + t[j + 1..];
        s[..j + 1] + s[j + 2..];
      }
    }
  }

  /** What `button_clicked` leaves behind: the lists, and whether it called
      `update_embed`. */
  datatype Outcome = Outcome(lists: Lists, updated: bool)

  /** `button_clicked`: the first list holding the member decides; its own
      button removes the member, any other button changes nothing. A member
      in no list is appended to the clicked list when it has room. */
  function Click(ls: Lists, limits: Limits, button: string, m: string): Outcome {
    match Holder(ls, m)
    case Some(k) =>
      if ButtonIds[k] == button then Outcome(ls.Set(k, RemoveFirst(ls.Get(k), m)), true)
      else Outcome(ls, true)
    case None =>
      match ButtonIndex(button)
      case Some(k) =>
        if HasRoom(ls, limits, k) then Outcome(ls.Set(k, ls.Get(k) + [m]), true)
        else Outcome(ls, false)
      case None => Outcome(ls, false)
  }

  /** The own button of the list holding the member takes one occurrence of it
      out of that list and leaves the other lists alone. */
  lemma ClickLeaves(ls: Lists, limits: Limits, m: string, k: nat)
    requires Holder(ls, m) == Some(k)
    ensures var r := Click(ls, limits, ButtonIds[k], m);
            r.updated && multiset(r.lists.Get(k)) == multiset(ls.Get(k)) - multiset{m}
            && Occurrences(r.lists, m) == Occurrences(ls, m) - 1
            && forall j :: 0 <= j < 4 && j != k ==> r.lists.Get(j) == ls.Get(j)
  {
    var s := RemoveFirst(ls.Get(k), m);
    assert Click(ls, limits, ButtonIds[k], m) == Outcome(ls.Set(k, s), true);
    OccurrencesSet(ls, k, s, m);
  }

  /** Any other button, while the member is in some list, changes no list. */
  lemma ClickOtherButton(ls: Lists, limits: Limits, m: string, button: string)
    requires Holder(ls, m).Some? && ButtonIds[Holder(ls, m).value] != button
    ensures Click(ls, limits, button, m) == Outcome(ls, true)
  {
  }

  /** A member in no list joins the clicked list exactly when it has room;
      the waiting list always has room. */
  lemma ClickJoins(ls: Lists, limits: Limits, m: string, k: nat)
    requires Occurrences(ls, m) == 0 && k < 4
    ensures var r := Click(ls, limits, ButtonIds[k], m);
            (r.updated <==> HasRoom(ls, limits, k))
            && (r.updated ==> r.lists == ls.Set(k, ls.Get(k) + [m]))
            && (!r.updated ==> r.lists == ls)
    ensures HasRoom(ls, limits, 3)
  {
    assert ButtonIndex(ButtonIds[k]) == Some(k);
  }

  /** A button id that names no list changes no list. */
  lemma ClickUnknownButton(ls: Lists, limits: Limits, m: string, button: string)
    requires button !in ButtonIds
    ensures Click(ls, limits, button, m).lists == ls
  {
    match Holder(ls, m)
    case Some(k) =>
      assert ButtonIds[k] != button;
    case None =>
  }

  /** Replacing one list changes the count by what the two versions hold. */
  lemma OccurrencesSet(ls: Lists, k: nat, s: seq<string>, x: string)
    requires k < 4
    ensures Occurrences(ls.Set(k, s), x) + multiset(ls.Get(k))[x] == Occurrences(ls, x) + multiset(s)[x]
  {
  }

  /** A mention is never in two lists, nor twice in one, after a click on
      lists where that already held. */
  lemma ClickKeepsAtMostOnce(ls: Lists, limits: Limits, button: string, m: string)
    requires AtMostOnce(ls)
    ensures AtMostOnce(Click(ls, limits, button, m).lists)
  {
    var r := Click(ls, limits, button, m).lists;
    forall x ensures Occurrences(r, x) <= 1 {
      assert Occurrences(ls, x) <= 1;
      match Holder(ls, m)
      case Some(k) =>
        if ButtonIds[k] == button {
          var s := RemoveFirst(ls.Get(k), m);
          OccurrencesSet(ls, k, s, x);
          assert multiset(s)[x] <= multiset(ls.Get(k))[x];
        }
      case None =>
        match ButtonIndex(button)
        case Some(k) =>
          if HasRoom(ls, limits, k) {
            var s := ls.Get(k) + [m];
            OccurrencesSet(ls, k, s, x);
            assert multiset(s) == multiset(ls.Get(k)) + multiset{m};
            assert x == m ==> multiset(ls.Get(k))[x] == 0;
          }
        case None =>
    }
  }

  /** No capped list grows past its limit. */
  lemma ClickKeepsWithinLimits(ls: Lists, limits: Limits, button: string, m: string)
    requires WithinLimits(ls, limits)
    ensures WithinLimits(Click(ls, limits, button, m).lists, limits)
  {
    match Holder(ls, m)
    case Some(k) =>
      if ButtonIds[k] == button {
        var r := Click(ls, limits, button, m).lists;
        assert |r.Get(k)| == |ls.Get(k)| - 1;
        assert forall j :: 0 <= j < 4 && j != k ==> r.Get(j) == ls.Get(j);
      }
    case None =>
  }

  /** Clicking the same button twice, from outside every list, puts the lists
      back as they were. */
  lemma ClickTwice(ls: Lists, limits: Limits, m: string, k: nat)
    requires Occurrences(ls, m) == 0 && k < 4 && HasRoom(ls, limits, k)
    ensures var once := Click(ls, limits, ButtonIds[k], m).lists;
            Click(once, limits, ButtonIds[k], m) == Outcome(ls, true)
  {
    ClickJoins(ls, limits, m, k);
    var once := Click(ls, limits, ButtonIds[k], m).lists;
    assert once == ls.Set(k, ls.Get(k) + [m]);
    assert m !in ls.Get(k);
    assert forall j :: 0 <= j < k ==> m !in once.Get(j);
    assert Holder(once, m) == Some(k);
    RemoveLast(ls.Get(k), m);
    assert once.Set(k, ls.Get(k)) == ls;
  }

  lemma {:induction false} RemoveLast(s: seq<string>, x: string)
    requires x !in s
    ensures RemoveFirst(s + [x], x) == s
  {
    if |s| > 0 {
      assert (s + [x])[1..] == s[1..] + [x];
      RemoveLast(s[1..], x);
      assert [s[0]] + s[1..] == s;
    }
  }

  // ---------------------------------------------------------------------------
  // The embed
  // ---------------------------------------------------------------------------

  /** The embed as the message shows it; colour and the waiting field's
      `inline=False` are left out. */
  datatype LegacyCard = LegacyCard(title: string, description: string, author: Option<Author>,
                                   fields: seq<TeamRender.Field>)

  /** The description: the time line, a line break, then `desc` when it is a
      non-empty string. */
  function LegacyDescription(time: int, desc: Option<string>): (r: string)
    ensures r == TeamRender.TimeLine(time) + "\n" + (if desc.Some? then desc.value else "")
  {
    TeamRender.TimeLine(time) + "\n" + (if desc.Some? && desc.value != "" then desc.value else "")
  }

  /** `f"{caption} ({count}/{limit})"`. */
  function CountHeading(caption: string, count: nat, limit: int): string {
    caption + " (" + IntToString(count) + "/" + IntToString(limit) + ")"
  }

  /** A field value: the mentions one per line, or the zero-width space. */
  function FieldBody(members: seq<string>): string {
    if members == [] then ZeroWidthSpace else Join("\n", members)
  }

  /** The four fields `update_embed` writes. */
  function Fields(ls: Lists, limits: Limits): (r: seq<TeamRender.Field>)
    ensures |r| == 4
  {
    [TeamRender.Field(CountHeading("DPS", |ls.dps|, limits.dps), FieldBody(ls.dps)),
     TeamRender.Field(CountHeading("Healer", |ls.healer|, limits.healer), FieldBody(ls.healer)),
     TeamRender.Field(CountHeading("Tank", |ls.tank|, limits.tank), FieldBody(ls.tank)),
     TeamRender.Field("Waiting", FieldBody(ls.waiting))]
  }

  /** `_create_embed`: the counts as they are, every value the zero-width space. */
  function NewCard(name: string, time: int, desc: Option<string>, author: Option<Author>,
                   ls: Lists, limits: Limits): (r: LegacyCard)
    ensures |r.fields| == 4
  {
    LegacyCard(name, LegacyDescription(time, desc), author,
               [TeamRender.Field(CountHeading("DPS", |ls.dps|, limits.dps), ZeroWidthSpace),
                TeamRender.Field(CountHeading("Healer", |ls.healer|, limits.healer), ZeroWidthSpace),
                TeamRender.Field(CountHeading("Tank", |ls.tank|, limits.tank), ZeroWidthSpace),
                TeamRender.Field("Waiting", ZeroWidthSpace)])
  }

  /** The embed after `update_embed`: the memoised embed, or a new one, with
      its four fields rewritten from the lists. */
  function Shown(embed: Option<LegacyCard>, name: string, time: int, desc: Option<string>,
                 author: Option<Author>, ls: Lists, limits: Limits): (r: LegacyCard)
    ensures r.fields == Fields(ls, limits)
    ensures embed.Some? ==> r == embed.value.(fields := r.fields)
    ensures embed.None? ==> r == LegacyCard(name, LegacyDescription(time, desc), author, r.fields)
  {
    var base := if embed.Some? then embed.value else NewCard(name, time, desc, author, ls, limits);
    base.(fields := Fields(ls, limits))
  }

  // ---------------------------------------------------------------------------
  // from_message, as a function of the embed
  // ---------------------------------------------------------------------------

  /** Length of the leading run of ASCII digits. */
  function DigitRun(s: string): (n: nat)
    ensures n <= |s| && (forall i :: 0 <= i < n ==> IsDigit(s[i])) && (n < |s| ==> !IsDigit(s[n]))
  {
    if |s| == 0 || !IsDigit(s[0]) then 0 else 1 + DigitRun(s[1..])
  }

  lemma {:induction false} DigitRunOf(d: string, rest: string)
    requires forall i :: 0 <= i < |d| ==> IsDigit(d[i])
    requires rest == [] || !IsDigit(rest[0])
    ensures DigitRun(d + rest) == |d|
    decreases |d|
  {
    if |d| > 0 {
      assert (d + rest)[1..] == d[1..] + rest;
      DigitRunOf(d[1..], rest);
    }
  }

  /** A match of `<t:(\d+):R>` at the start of `s`, as the captured number.
      The digit run is greedy; since a digit is never ':', no shorter run
      could be followed by ":R>" either. */
  function MatchTimestampAt(s: string): (r: Option<int>)
    ensures r.Some? ==> exists k :: 3 < k <= |s| - 3 && s[..3] == "<t:" && IsDigits(s[3..k])
                                    && s[k..k + 3] == ":R>" && r.value == DigitsValue(s[3..k])
  {
    if |s| >= 3 && s[..3] == "<t:" then
      var n := DigitRun(s[3..]);
      if n > 0 && 3 + n + 3 <= |s| && s[3 + n..3 + n + 3] == ":R>" then
        assert s[3..][..n] == s[3..3 + n];
        Some(DigitsValue(s[3..3 + n]) as int)
      else None
    else None
  }

  /** Every `<t:digits:R>` prefix is matched, with its number. */
  lemma MatchTimestampOf(d: string, rest: string)
    requires IsDigits(d)
    ensures MatchTimestampAt("<t:" + d + ":R>" + rest) == Some(DigitsValue(d) as int)
  {
    var s := "<t:" + d + ":R>" + rest;
    assert s[..3] == "<t:";
    assert s[3..] == d + (":R>" + rest);
    DigitRunOf(d, ":R>" + rest);
    assert s[3..3 + |d|] == d;
    assert s[3 + |d|..3 + |d| + 3] == ":R>";
  }

  /** `regex.search(r"<t:(\d+):R>", s)`: the leftmost match, as its number. */
  function SearchTimestamp(s: string): (r: Option<int>)
    decreases |s|
  {
    if s == [] then None
    else if MatchTimestampAt(s).Some? then MatchTimestampAt(s)
    else SearchTimestamp(s[1..])
  }

  /** Text without '<' holds no match and is skipped over. */
  lemma {:induction false} SearchSkips(a: string, b: string)
    requires '<' !in a
    ensures SearchTimestamp(a + b) == SearchTimestamp(b)
    decreases |a|
  {
    if |a| > 0 {
      var s := a + b;
      assert s[0] == a[0] && s[0] != '<';
      assert MatchTimestampAt(s).None? by {
        if |s| >= 3 {
          assert s[..3][0] == s[0];
        }
      }
      assert s[1..] == a[1..] + b;
      SearchSkips(a[1..], b);
    } else {
      assert a + b == b;
    }
  }

  /** `<t:digits:f>` is no match: after the digits comes ":f>". */
  lemma SkipFullDate(d: string, rest: string)
    requires IsDigits(d)
    ensures SearchTimestamp("<t:" + d + ":f>" + rest) == SearchTimestamp("t:" + d + ":f>" + rest)
  {
    var s := "<t:" + d + ":f>" + rest;
    assert s[..3] == "<t:";
    assert s[3..] == d + (":f>" + rest);
    DigitRunOf(d, ":f>" + rest);
    assert s[3 + |d|..3 + |d| + 3] == ":f>";
    assert MatchTimestampAt(s).None?;
    assert s[1..] == "t:" + d + ":f>" + rest;
  }

  /** The time line of a group with a non-negative timestamp yields that
      timestamp. */
  lemma SearchTimeLine(t: int)
    requires t >= 0
    ensures SearchTimestamp(TeamRender.TimeLine(t)) == Some(t)
  {
    var d := IntToString(t);
    SearchTimeLineSkipsLabel(t);
    SkipFullDateLine(d, FormatDt(t, "R") + ")");
    SearchTimeLineRelative(t);
  }

  lemma SearchTimeLineSkipsLabel(t: int)
    ensures SearchTimestamp(TeamRender.TimeLine(t))
            == SearchTimestamp("<t:" + IntToString(t) + ":f>" + (" (" + (FormatDt(t, "R") + ")")))
  {
    var tail := "<t:" + IntToString(t) + ":f>" + (" (" + (FormatDt(t, "R") + ")"));
    assert TeamRender.TimeLine(t) == "**Time:** " + tail;
    SearchSkips("**Time:** ", tail);
  }

  /** The full date and the opening parenthesis are skipped. */
  lemma SkipFullDateLine(d: string, r: string)
    requires IsDigits(d)
    ensures SearchTimestamp("<t:" + d + ":f>" + (" (" + r)) == SearchTimestamp(r)
  {
    SkipFullDate(d, " (" + r);
    var p := "t:" + d + ":f>" + " (";
    assert '<' !in d;
    assert '<' !in p;
    assert "t:" + d + ":f>" + (" (" + r) == p + r;
    SearchSkips(p, r);
  }

  lemma SearchTimeLineRelative(t: int)
    requires t >= 0
    ensures SearchTimestamp(FormatDt(t, "R") + ")") == Some(t)
  {
    var d := IntToString(t);
    assert FormatDt(t, "R") + ")" == "<t:" + d + ":R>" + ")";
    NatToStringValue(t);
    MatchTimestampOf(d, ")");
  }

  /** `int(name.rsplit("/", 1)[1].rstrip(")"))`: `None` where Python raises. */
  function HeadingLimit(name: string): Option<int> {
    var parts := RSplitOnce(name, '/');
    if |parts| < 2 then None else ParseInt(RStripChar(parts[1], ')'))
  }

  /** The limit written into a heading is the one read back. */
  lemma HeadingLimitRoundTrip(caption: string, count: nat, limit: int)
    requires '/' !in caption
    ensures HeadingLimit(CountHeading(caption, count, limit)) == Some(limit)
  {
    var head := caption + " (" + IntToString(count);
    var tail := IntToString(limit) + ")";
    IntToStringNoChar(count, '/');
    IntToStringNoChar(limit, '/');
    IntToStringNoChar(limit, ')');
    assert CountHeading(caption, count, limit) == head + ['/'] + tail;
    RSplitOnceAt(head, tail, '/');
    RStripCharAbsent(IntToString(limit), ')');
    assert RStripChar(tail, ')') == IntToString(limit);
    ParseIntToString(limit);
  }

  /** A line `from_message` keeps as a mention. */
  predicate IsMentionLine(line: string) {
    Strip(line) != "" && line != ZeroWidthSpace
  }

  /** `[m for m in value.splitlines() if m.strip() and m != "​"]`. */
  function MentionLines(lines: seq<string>): (r: seq<string>)
    ensures |r| <= |lines|
    ensures forall i :: 0 <= i < |r| ==> IsMentionLine(r[i]) && r[i] in lines
  {
    if lines == [] then []
    else if IsMentionLine(lines[0]) then [lines[0]] + MentionLines(lines[1..])
    else MentionLines(lines[1..])
  }

  function ParseBody(value: string): seq<string> {
    MentionLines(SplitLines(value))
  }

  /** A mention `update_embed` can write and `from_message` reads back:
      one line, not blank, not the zero-width space. */
  predicate WellFormed(m: string) {
    NoLineBreak(m) && !IsBlank(m) && m != ZeroWidthSpace
  }

  lemma {:induction false} MentionLinesKeep(lines: seq<string>)
    requires forall i :: 0 <= i < |lines| ==> WellFormed(lines[i])
    ensures MentionLines(lines) == lines
    decreases |lines|
  {
    if lines != [] {
      StripEmptyIffBlank(lines[0]);
      MentionLinesKeep(lines[1..]);
      assert [lines[0]] + lines[1..] == lines;
    }
  }

  /** A field body read back is the member list it was written from. */
  lemma ParseBodyRoundTrip(members: seq<string>)
    requires forall i :: 0 <= i < |members| ==> WellFormed(members[i])
    ensures ParseBody(FieldBody(members)) == members
  {
    if members == [] {
      assert NoLineBreak(ZeroWidthSpace);
      SplitLinesSingle(ZeroWidthSpace);
      assert !IsMentionLine(ZeroWidthSpace);
    } else {
      forall i | 0 <= i < |members| ensures members[i] != [] {
        assert !IsBlank(members[i]);
      }
      SplitLinesJoin(members);
      MentionLinesKeep(members);
    }
  }

  /** The record `from_message` rebuilds; it has no author. */
  datatype Loaded = Loaded(name: string, time: int, desc: Option<string>, limits: Limits, lists: Lists)

  /** The description split at "\n": the first line, and the rest joined
      back, or `None` when there is no second line. */
  function SplitDescription(description: string): (r: (string, Option<string>))
  {
    var lines := if description == "" then [] else SplitOn(description, '\n');
    var timeLine := if lines == [] then "" else lines[0];
    (timeLine, if |lines| > 1 then Some(Join("\n", lines[1..])) else None)
  }

  /** The three limits read from the first three headings. */
  function LoadLimits(fields: seq<TeamRender.Field>): Option<Limits>
    requires |fields| >= 4
  {
    match HeadingLimit(fields[0].name)
    case None => None
    case Some(d) =>
      match HeadingLimit(fields[1].name)
      case None => None
      case Some(h) =>
        match HeadingLimit(fields[2].name)
        case None => None
        case Some(k) => Some(Limits(d, h, k))
  }

  /** The four lists read from the four field bodies. */
  function LoadLists(fields: seq<TeamRender.Field>): Lists
    requires |fields| >= 4
  {
    PerSection(ParseBody(fields[0].value), ParseBody(fields[1].value),
          ParseBody(fields[2].value), ParseBody(fields[3].value))
  }

  /** The last second `datetime.fromtimestamp(t, tz=UTC)` accepts:
      9999-12-31 23:59:59 UTC. A later timestamp raises, since year 10000 is
      out of `datetime`'s range. */
  const MaxTimestamp: int := 253402300799

  /** `from_message`: `None` where Python raises (no `<t:N:R>` in the first
      description line, a timestamp past `MaxTimestamp`, fewer than four
      fields, or a heading limit that is not an integer). An empty title
      becomes "Unnamed Group". */
  function FromMessage(card: LegacyCard): (r: Option<Loaded>)
    ensures r.Some? <==> SearchTimestamp(SplitDescription(card.description).0).Some?
                         && SearchTimestamp(SplitDescription(card.description).0).value <= MaxTimestamp
                         && |card.fields| >= 4 && LoadLimits(card.fields).Some?
    ensures r.Some? ==> r.value.name != "" && r.value.desc == SplitDescription(card.description).1
  {
    var title := if card.title == "" then "Unnamed Group" else card.title;
    var parts := SplitDescription(card.description);
    match SearchTimestamp(parts.0)
    case None => None
    case Some(t) =>
      if t > MaxTimestamp then None
      else if |card.fields| < 4 then None
      else
        match LoadLimits(card.fields)
        case None => None
        case Some(limits) => Some(Loaded(title, t, parts.1, limits, LoadLists(card.fields)))
  }

  /** The shown description splits back into the time line and the
      description, where a missing description comes back as "". */
  lemma SplitDescriptionRoundTrip(time: int, desc: Option<string>)
    ensures SplitDescription(LegacyDescription(time, desc))
            == (TeamRender.TimeLine(time), Some(if desc.Some? then desc.value else ""))
  {
    var line := TeamRender.TimeLine(time);
    var rest := if desc.Some? then desc.value else "";
    IntToStringNoChar(time, '\n');
    assert '\n' !in line;
    SplitOnConcat(line, rest, '\n');
    assert LegacyDescription(time, desc) == line + ['\n'] + rest;
    assert ([line] + SplitOn(rest, '\n'))[1..] == SplitOn(rest, '\n');
    JoinSplitOn(rest, '\n');
  }

  /** Headings of the `CountHeading` form give back their limits. */
  lemma LoadLimitsOf(f: seq<TeamRender.Field>, c0: string, c1: string, c2: string,
                     n0: nat, n1: nat, n2: nat, limits: Limits)
    requires |f| >= 4 && '/' !in c0 && '/' !in c1 && '/' !in c2
    requires f[0].name == CountHeading(c0, n0, limits.dps)
    requires f[1].name == CountHeading(c1, n1, limits.healer)
    requires f[2].name == CountHeading(c2, n2, limits.tank)
    ensures LoadLimits(f) == Some(limits)
  {
    HeadingLimitRoundTrip(c0, n0, limits.dps);
    HeadingLimitRoundTrip(c1, n1, limits.healer);
    HeadingLimitRoundTrip(c2, n2, limits.tank);
  }

  /** The headings `update_embed` writes give back the limits. */
  lemma LoadLimitsRoundTrip(ls: Lists, limits: Limits)
    ensures LoadLimits(Fields(ls, limits)) == Some(limits)
  {
    LoadLimitsOf(Fields(ls, limits), "DPS", "Healer", "Tank", |ls.dps|, |ls.healer|, |ls.tank|, limits);
  }

  /** Every mention in every list is well formed. */
  predicate AllWellFormed(ls: Lists) {
    (forall i :: 0 <= i < |ls.dps| ==> WellFormed(ls.dps[i]))
    && (forall i :: 0 <= i < |ls.healer| ==> WellFormed(ls.healer[i]))
    && (forall i :: 0 <= i < |ls.tank| ==> WellFormed(ls.tank[i]))
    && (forall i :: 0 <= i < |ls.waiting| ==> WellFormed(ls.waiting[i]))
  }

  /** Bodies of the `FieldBody` form give back their lists. */
  lemma LoadListsOf(f: seq<TeamRender.Field>, ls: Lists)
    requires |f| >= 4 && AllWellFormed(ls)
    requires f[0].value == FieldBody(ls.dps) && f[1].value == FieldBody(ls.healer)
    requires f[2].value == FieldBody(ls.tank) && f[3].value == FieldBody(ls.waiting)
    ensures LoadLists(f) == ls
  {
    ParseBodyRoundTrip(ls.dps);
    ParseBodyRoundTrip(ls.healer);
    ParseBodyRoundTrip(ls.tank);
    ParseBodyRoundTrip(ls.waiting);
  }

  /** The bodies `update_embed` writes give back the lists. */
  lemma LoadListsRoundTrip(ls: Lists, limits: Limits)
    requires AllWellFormed(ls)
    ensures LoadLists(Fields(ls, limits)) == ls
  {
    LoadListsOf(Fields(ls, limits), ls);
  }

  /** The embed a controller shows after `update_embed`, read back by
      `from_message`, gives back name, time, limits and every list; a missing
      description comes back as "". */
  lemma FromMessageRoundTrip(name: string, time: int, desc: Option<string>, author: Option<Author>,
                             limits: Limits, ls: Lists)
    requires name != "" && 0 <= time <= MaxTimestamp && AllWellFormed(ls)
    ensures FromMessage(LegacyCard(name, LegacyDescription(time, desc), author, Fields(ls, limits)))
            == Some(Loaded(name, time, Some(if desc.Some? then desc.value else ""), limits, ls))
  {
    SplitDescriptionRoundTrip(time, desc);
    SearchTimeLine(time);
    LoadLimitsRoundTrip(ls, limits);
    LoadListsRoundTrip(ls, limits);
  }

  /** A card whose time line lies past year 9999 does not load: Python's
      `datetime.fromtimestamp` raises. */
  lemma FromMessageTimeRange(name: string, time: int, desc: Option<string>, author: Option<Author>,
                             limits: Limits, ls: Lists)
    requires time > MaxTimestamp
    ensures FromMessage(LegacyCard(name, LegacyDescription(time, desc), author, Fields(ls, limits))).None?
  {
    SplitDescriptionRoundTrip(time, desc);
    SearchTimeLine(time);
  }

  /** A reloaded controller shows the same embed again, only without the
      author line. */
  lemma ReloadedCard(name: string, time: int, desc: Option<string>, author: Option<Author>,
                     limits: Limits, ls: Lists)
    requires name != "" && 0 <= time <= MaxTimestamp && AllWellFormed(ls)
    ensures FromMessage(LegacyCard(name, LegacyDescription(time, desc), author, Fields(ls, limits))).Some?
    ensures var card := LegacyCard(name, LegacyDescription(time, desc), author, Fields(ls, limits));
            var l := FromMessage(card).value;
            LegacyCard(l.name, LegacyDescription(l.time, l.desc), None, Fields(l.lists, l.limits))
            == card.(author := None)
  {
    FromMessageRoundTrip(name, time, desc, author, limits, ls);
  }

  /** The card `_create_embed` makes carries the name, the description and
      the author; its headings give back the limits, and its values read back
      as no members. */
  lemma NewCardReads(name: string, time: int, desc: Option<string>, author: Option<Author>,
                     ls: Lists, limits: Limits)
    ensures var r := NewCard(name, time, desc, author, ls, limits);
            r.title == name && r.description == LegacyDescription(time, desc) && r.author == author
            && LoadLimits(r.fields) == Some(limits) && LoadLists(r.fields) == NoLists
  {
    var f := NewCard(name, time, desc, author, ls, limits).fields;
    LoadLimitsOf(f, "DPS", "Healer", "Tank", |ls.dps|, |ls.healer|, |ls.tank|, limits);
    LoadListsOf(f, NoLists);
  }

  /** A new card, before anyone joins, is the card `update_embed` shows for
      empty lists, so it reloads with its name, time and limits and no
      members. */
  lemma NewCardReloads(name: string, time: int, desc: Option<string>, author: Option<Author>, limits: Limits)
    requires name != "" && 0 <= time <= MaxTimestamp
    ensures NewCard(name, time, desc, author, NoLists, limits)
            == LegacyCard(name, LegacyDescription(time, desc), author, Fields(NoLists, limits))
    ensures FromMessage(NewCard(name, time, desc, author, NoLists, limits))
            == Some(Loaded(name, time, Some(if desc.Some? then desc.value else ""), limits, NoLists))
  {
    FromMessageRoundTrip(name, time, desc, author, limits, NoLists);
  }

  // ---------------------------------------------------------------------------
  // The controller
  // ---------------------------------------------------------------------------

  class LegacyGroupController {
    var name: string
    var time: int
    var desc: Option<string>
    var author: Option<Author>
    var dpsLimit: int
    var healerLimit: int
    var tankLimit: int
    var dpsMembers: seq<string>
    var healerMembers: seq<string>
    var tankMembers: seq<string>
    var waitingMembers: seq<string>
    /** `self._embed`, built on first use. */
    var embed: Option<LegacyCard>

    function Members(): Lists
      reads this
    {
      PerSection(dpsMembers, healerMembers, tankMembers, waitingMembers)
    }

    function Caps(): Limits
      reads this
    {
      Limits(dpsLimit, healerLimit, tankLimit)
    }

    /** A built embed has its four fields, which `set_field_at` needs. */
    predicate Valid()
      reads this
    {
      embed.Some? ==> |embed.value.fields| == 4
    }

    constructor (name: string, limits: Limits, time: int, desc: Option<string>, author: Option<Author>)
      ensures this.name == name && this.time == time && this.desc == desc && this.author == author
      ensures Caps() == limits && Members() == NoLists && embed == None
      ensures Valid()
    {
      this.name := name;
      this.time := time;
      this.desc := desc;
      this.author := author;
      dpsLimit, healerLimit, tankLimit := limits.dps, limits.healer, limits.tank;
      dpsMembers, healerMembers, tankMembers, waitingMembers := [], [], [], [];
      embed := None;
    }

    /** The `embed` property. */
    method Embed() returns (card: LegacyCard)
      requires Valid()
      modifies this
      ensures old(embed).Some? ==> card == old(embed).value
      ensures old(embed).None? ==> card == NewCard(name, time, desc, author, Members(), Caps())
      ensures embed == Some(card) && Valid()
      ensures Members() == old(Members()) && Caps() == old(Caps())
      ensures name == old(name) && time == old(time) && desc == old(desc) && author == old(author)
    {
      if embed.None? {
        embed := Some(NewCard(name, time, desc, author, Members(), Caps()));
      }
      card := embed.value;
    }

    /** `update_embed`: the four fields are rewritten from the lists. */
    method UpdateEmbed()
      requires Valid()
      modifies this
      ensures embed == Some(Shown(old(embed), name, time, desc, author, Members(), Caps()))
      ensures Valid()
      ensures Members() == old(Members()) && Caps() == old(Caps())
      ensures name == old(name) && time == old(time) && desc == old(desc) && author == old(author)
    {
      var card := Embed();
      var fields := Fields(Members(), Caps());
      card := card.(fields := card.fields[0 := fields[0]]);
      card := card.(fields := card.fields[1 := fields[1]]);
      card := card.(fields := card.fields[2 := fields[2]]);
      card := card.(fields := card.fields[3 := fields[3]]);
      assert card.fields == fields;
      embed := Some(card);
    }

    method SetLists(ls: Lists)
      modifies this
      ensures Members() == ls
      ensures Caps() == old(Caps()) && embed == old(embed)
      ensures name == old(name) && time == old(time) && desc == old(desc) && author == old(author)
    {
      dpsMembers, healerMembers, tankMembers, waitingMembers := ls.dps, ls.healer, ls.tank, ls.waiting;
    }

    /** The two loops of `button_clicked`: the lists they leave and whether
      they reach `update_embed`. */
    method ClickOutcome(button: string, mention: string) returns (o: Outcome)
      ensures o == Click(Members(), Caps(), button, mention)
    {
      var ls := Members();
      var k := 0;
      while k < 4
        invariant 0 <= k <= 4
        invariant forall j :: 0 <= j < k ==> mention !in ls.Get(j)
      {
        var lst := ls.Get(k);
        if mention in lst && ButtonIds[k] == button {
          return Outcome(ls.Set(k, RemoveFirst(lst, mention)), true);
        }
        if mention in lst && ButtonIds[k] != button {
          return Outcome(ls, true);
        }
        k := k + 1;
      }
      assert Holder(ls, mention).None?;
      k := 0;
      while k < 4
        invariant 0 <= k <= 4
        invariant forall j :: 0 <= j < k && ButtonIds[j] == button ==> !HasRoom(ls, Caps(), j)
      {
        var lst := ls.Get(k);
        if ButtonIds[k] == button && HasRoom(ls, Caps(), k) && mention !in lst {
          assert ButtonIndex(button) == Some(k);
          return Outcome(ls.Set(k, lst + [mention]), true);
        }
        k := k + 1;
      }
      return Outcome(ls, false);
    }

    /** `button_clicked`: the lists change as `Click` says, and the embed is
      rewritten exactly when `update_embed` runs. */
    method ButtonClicked(button: string, mention: string)
      requires Valid()
      modifies this
      ensures Members() == Click(old(Members()), Caps(), button, mention).lists
      ensures embed == if Click(old(Members()), Caps(), button, mention).updated
                       then Some(Shown(old(embed), name, time, desc, author, Members(), Caps()))
                       else old(embed)
      ensures Valid()
      ensures Caps() == old(Caps())
      ensures name == old(name) && time == old(time) && desc == old(desc) && author == old(author)
    {
      var o := ClickOutcome(button, mention);
      if o.updated {
        SetLists(o.lists);
        UpdateEmbed();
      }
    }
  }

  /** The controller `from_message` builds from a loaded record. */
  method Load(l: Loaded) returns (c: LegacyGroupController)
    ensures fresh(c) && c.embed == None && c.author == None && c.Valid()
    ensures c.name == l.name && c.time == l.time && c.desc == l.desc
    ensures c.Caps() == l.limits && c.Members() == l.lists
  {
    c := new LegacyGroupController(l.name, l.limits, l.time, l.desc, None);
    c.dpsMembers := l.lists.dps;
    c.healerMembers := l.lists.healer;
    c.tankMembers := l.lists.tank;
    c.waitingMembers := l.lists.waiting;
  }

  /** `from_message`: a new controller holding the loaded record, with no
      author and no embed built yet, or `None` where Python raises. */
  method LoadFromMessage(card: LegacyCard) returns (r: Option<LegacyGroupController>)
    ensures r.Some? <==> FromMessage(card).Some?
    ensures r.Some? ==> fresh(r.value) && r.value.embed == None && r.value.author == None && r.value.Valid()
    ensures r.Some? ==> var l := FromMessage(card).value;
                        r.value.name == l.name && r.value.time == l.time && r.value.desc == l.desc
                        && r.value.Caps() == l.limits && r.value.Members() == l.lists
  {
    var loaded := FromMessage(card);
    if loaded.None? {
      return None;
    }
    var c := Load(loaded.value);
    r := Some(c);
  }
}
