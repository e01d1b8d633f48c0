/** The BPSR group message built from layout components: a header, one text
    section per role and a waiting list, each holding its heading and one
    mention per line, and the modal that creates it. Every click re-reads
    the clicked section's text and writes it back. */
module BpsrLayout {
  import opened Wrappers
  import opened Text
  import opened BpsrController

  // ---------------------------------------------------------------------------
  // parse_limit: "dps healers tanks"
  // ---------------------------------------------------------------------------

  const DefaultLimits: Limits := Limits(3, 1, 1)

  /** `parse_limit`: three integers separated by whitespace, or (3, 1, 1) for
      an empty field and for anything that is not exactly three integers. */
  function ParseLimit(text: string): (r: Limits)
    ensures r != DefaultLimits ==>
              var t := SplitWhitespace(text);
              |t| == 3 && ParseInt(t[0]) == Some(r.dps) && ParseInt(t[1]) == Some(r.healer)
              && ParseInt(t[2]) == Some(r.tank)
    ensures var t := SplitWhitespace(text);
            |t| == 3 && ParseInt(t[0]).Some? && ParseInt(t[1]).Some? && ParseInt(t[2]).Some? ==>
              r == Limits(ParseInt(t[0]).value, ParseInt(t[1]).value, ParseInt(t[2]).value)
  {
    if text == "" then DefaultLimits
    else
      var t := SplitWhitespace(text);
      if |t| != 3 then DefaultLimits
      else
        match (ParseInt(t[0]), ParseInt(t[1]), ParseInt(t[2]))
        case (Some(d), Some(h), Some(k)) => Limits(d, h, k)
        case _ => DefaultLimits
  }

  /** Three integers, written as the placeholder suggests, parse back. */
  lemma ParseLimitRoundTrip(l: Limits)
    ensures ParseLimit(IntToString(l.dps) + " " + IntToString(l.healer) + " " + IntToString(l.tank)) == l
  {
    var a, b, c := IntToString(l.dps), IntToString(l.healer), IntToString(l.tank);
    IntToStringNoSpace(l.dps);
    IntToStringNoSpace(l.healer);
    IntToStringNoSpace(l.tank);
    assert [a, b, c][1..] == [b, c] && [b, c][1..] == [c];
    assert Join(" ", [b, c]) == b + " " + c;
    assert Join(" ", [a, b, c]) == a + " " + b + " " + c;
    SplitWhitespaceJoin([a, b, c]);
    ParseIntToString(l.dps);
    ParseIntToString(l.healer);
    ParseIntToString(l.tank);
  }

  /** More or fewer than three tokens give the defaults. */
  lemma ParseLimitCount(text: string)
    requires |SplitWhitespace(text)| != 3
    ensures ParseLimit(text) == DefaultLimits
  {
  }

  /** Three tokens of which one is not an integer give the defaults. */
  lemma ParseLimitBadToken(text: string)
    requires |SplitWhitespace(text)| == 3
    requires exists i :: 0 <= i < 3 && ParseInt(SplitWhitespace(text)[i]).None?
    ensures ParseLimit(text) == DefaultLimits
  {
    var t := SplitWhitespace(text);
    var i :| 0 <= i < 3 && ParseInt(t[i]).None?;
    assert ParseInt(t[0]).None? || ParseInt(t[1]).None? || ParseInt(t[2]).None?;
  }

  // ---------------------------------------------------------------------------
  // Section texts
  // ---------------------------------------------------------------------------

  /** The contents of the four section text displays. */
  type Sections = PerSection<string>

  /** `self._mapping[id]["limit"]`: the waiting list has none. */
  function SectionLimit(limits: Limits, k: nat): (r: Option<int>)
    requires k < 4
    ensures r.None? <==> k == 3
  {
    if k == 0 then Some(limits.dps) else if k == 1 then Some(limits.healer)
    else if k == 2 then Some(limits.tank) else None
  }

  /** `f"{header} ({n})"` or `f"{header} ({n}/{limit})"`. */
  function CountLine(header: string, count: nat, limit: Option<int>): string {
    header + " " + CountTail(count, limit)
  }

  /** The part of a count line after its last space. */
  function CountTail(count: nat, limit: Option<int>): string {
    "(" + IntToString(count) + (if limit.Some? then "/" + IntToString(limit.value) else "") + ")"
  }

  /** The content `button_callback` writes: the count line, a line break,
      then the users one per line. */
  function SectionContent(header: string, users: seq<string>, limit: Option<int>): string {
    CountLine(header, |users|, limit) + "\n" + Join("\n", users)
  }

  /** The contents the view starts with. */
  function InitialSections(limits: Limits): Sections {
    PerSection(CountLine("**DPS**", 0, Some(limits.dps)), CountLine("**Healers**", 0, Some(limits.healer)),
             CountLine("**Tanks**", 0, Some(limits.tank)), CountLine("**Waiting List**", 0, None))
  }

  /** `[user.strip() for user in lines if user.strip()]`. */
  function StrippedUsers(lines: seq<string>): (r: seq<string>)
    ensures |r| <= |lines|
    ensures forall i :: 0 <= i < |r| ==> r[i] != ""
  {
    if lines == [] then []
    else if Strip(lines[0]) != "" then [Strip(lines[0])] + StrippedUsers(lines[1..])
    else StrippedUsers(lines[1..])
  }

  /** A section's heading and users (`get_section` for a known section):
      the first line without its last space-separated word, and the stripped
      non-blank lines after it. `None` where Python raises: a content with no
      line at all. */
  function ReadSection(content: string): Option<(string, seq<string>)> {
    var lines := SplitLines(content);
    if lines == [] then None
    else Some((RSplitOnce(lines[0], ' ')[0], StrippedUsers(lines[1..])))
  }

  /** `get_section`: ("", []) for an id that names no section. */
  function GetSection(sections: Sections, id: string): Option<(string, seq<string>)> {
    match ButtonIndex(id)
    case None => Some(("", []))
    case Some(k) => ReadSection(sections.Get(k))
  }

  lemma GetSectionUnknown(sections: Sections, id: string)
    requires id !in ButtonIds
    ensures GetSection(sections, id) == Some(("", []))
  {
  }

  /** A user `button_callback` writes and `get_section` reads back unchanged. */
  predicate WellFormedUser(u: string) {
    u != "" && Strip(u) == u && NoLineBreak(u)
  }

  lemma {:induction false} StrippedUsersKeep(users: seq<string>)
    requires forall i :: 0 <= i < |users| ==> WellFormedUser(users[i])
    ensures StrippedUsers(users) == users
    decreases |users|
  {
    if users != [] {
      StrippedUsersKeep(users[1..]);
      assert [users[0]] + users[1..] == users;
    }
  }

  lemma CountTailNoSpace(count: nat, limit: Option<int>)
    ensures ' ' !in CountTail(count, limit)
  {
    IntToStringNoChar(count, ' ');
    if limit.Some? {
      IntToStringNoChar(limit.value, ' ');
    }
  }

  /** The last word of a count line is the count; what comes before is the
      heading. */
  lemma CountLineHeader(header: string, count: nat, limit: Option<int>)
    ensures RSplitOnce(CountLine(header, count, limit), ' ')[0] == header
  {
    CountTailNoSpace(count, limit);
    RSplitOnceAt(header, CountTail(count, limit), ' ');
  }

  lemma CountLineNoBreak(header: string, count: nat, limit: Option<int>)
    requires NoLineBreak(header)
    ensures NoLineBreak(CountLine(header, count, limit))
  {
    var tail := " " + CountTail(count, limit);
    IntToStringNoSpace(count);
    if limit.Some? {
      IntToStringNoSpace(limit.value);
    }
    assert NoLineBreak(tail);
    NoLineBreakConcat(header, tail);
  }

  /** A written section reads back as its heading and users. */
  lemma ReadSectionRoundTrip(header: string, users: seq<string>, limit: Option<int>)
    requires NoLineBreak(header)
    requires forall i :: 0 <= i < |users| ==> WellFormedUser(users[i])
    ensures ReadSection(SectionContent(header, users, limit)) == Some((header, users))
  {
    var line := CountLine(header, |users|, limit);
    CountLineNoBreak(header, |users|, limit);
    SplitLinesCons(line, Join("\n", users));
    SplitLinesJoin(users);
    CountLineHeader(header, |users|, limit);
    StrippedUsersKeep(users);
    var lines := SplitLines(SectionContent(header, users, limit));
    assert lines == [line] + users;
    assert lines[1..] == users;
  }

  /** The starting contents read back as the heading with no users. */
  lemma ReadInitialSection(header: string, limit: Option<int>)
    requires NoLineBreak(header) && header != ""
    ensures ReadSection(CountLine(header, 0, limit)) == Some((header, []))
  {
    var line := CountLine(header, 0, limit);
    CountLineNoBreak(header, 0, limit);
    SplitLinesSingle(line);
    CountLineHeader(header, 0, limit);
  }

  // ---------------------------------------------------------------------------
  // button_callback, as a function of the section texts
  // ---------------------------------------------------------------------------

  /** What the user sees after a click. */
  datatype Reply =
    | Ignored           // an id with no section
    | Full(message: string)
    | Updated
    | Failed            // the section text had no line: Python raises

  /** `custom_id.title()` for the one-word ids. */
  function Capitalized(s: string): string {
    if s == [] then [] else [if 'a' <= s[0] <= 'z' then (s[0] as int - 32) as char else s[0]] + ToLower(s[1..])
  }

  function FullMessage(id: string): string {
    "The " + Capitalized(id) + " section is full. Please choose another role or join the waiting list."
  }

  /** The clicked section's users after the toggle: appended when absent,
      the first occurrence removed when present. */
  function Toggle(users: seq<string>, m: string): (r: seq<string>)
    ensures m !in users ==> r == users + [m]
    ensures m in users ==> multiset(r) == multiset(users) - multiset{m}
  {
    if m !in users then users + [m] else RemoveFirst(users, m)
  }

  /** `button_callback`: the new section texts and the reply. */
  function Callback(sections: Sections, limits: Limits, id: string, m: string): (Sections, Reply) {
    match ButtonIndex(id)
    case None => (sections, Ignored)
    case Some(k) =>
      match ReadSection(sections.Get(k))
      case None => (sections, Failed)
      case Some(sec) =>
        var limit := SectionLimit(limits, k);
        if limit.Some? && |sec.1| >= limit.value && m !in sec.1 then (sections, Full(FullMessage(id)))
        else (sections.Set(k, SectionContent(sec.0, Toggle(sec.1, m), limit)), Updated)
  }

  /** An id with no section changes nothing. */
  lemma CallbackUnknown(sections: Sections, limits: Limits, id: string, m: string)
    requires id !in ButtonIds
    ensures Callback(sections, limits, id, m) == (sections, Ignored)
  {
  }

  /** A click is rejected, with nothing changed, exactly when the section has
      a limit, holds at least that many users and not the clicking one. */
  lemma CallbackFull(sections: Sections, limits: Limits, k: nat, m: string, header: string, users: seq<string>)
    requires k < 4 && ReadSection(sections.Get(k)) == Some((header, users))
    ensures var r := Callback(sections, limits, ButtonIds[k], m);
            r.1.Full? <==> SectionLimit(limits, k).Some? && |users| >= SectionLimit(limits, k).value && m !in users
    ensures Callback(sections, limits, ButtonIds[k], m).1.Full? ==> Callback(sections, limits, ButtonIds[k], m).0 == sections
  {
    assert ButtonIndex(ButtonIds[k]) == Some(k);
  }

  /** The waiting list is never full. */
  lemma WaitingNeverFull(sections: Sections, limits: Limits, m: string)
    ensures !Callback(sections, limits, "waiting", m).1.Full?
  {
    assert ButtonIndex("waiting") == Some(3);
  }

  /** Only the clicked section changes, and it is rewritten from the toggled
      users, which `get_section` reads back on the next click. */
  lemma CallbackToggles(sections: Sections, limits: Limits, k: nat, m: string, header: string, users: seq<string>)
    requires k < 4 && ReadSection(sections.Get(k)) == Some((header, users))
    requires !(SectionLimit(limits, k).Some? && |users| >= SectionLimit(limits, k).value && m !in users)
    requires NoLineBreak(header) && WellFormedUser(m)
    requires forall i :: 0 <= i < |users| ==> WellFormedUser(users[i])
    ensures var r := Callback(sections, limits, ButtonIds[k], m);
            r.1 == Updated
            && ReadSection(r.0.Get(k)) == Some((header, Toggle(users, m)))
            && forall j :: 0 <= j < 4 && j != k ==> r.0.Get(j) == sections.Get(j)
  {
    assert ButtonIndex(ButtonIds[k]) == Some(k);
    var t := Toggle(users, m);
    ToggleKeepsWellFormed(users, m);
    ReadSectionRoundTrip(header, t, SectionLimit(limits, k));
  }

  /** Toggling a well-formed user keeps every user well formed. */
  lemma ToggleKeepsWellFormed(users: seq<string>, m: string)
    requires WellFormedUser(m) && forall i :: 0 <= i < |users| ==> WellFormedUser(users[i])
    ensures forall i :: 0 <= i < |Toggle(users, m)| ==> WellFormedUser(Toggle(users, m)[i])
  {
    var t := Toggle(users, m);
    forall i | 0 <= i < |t| ensures WellFormedUser(t[i]) {
      if m in users {
        assert t[i] in multiset(t);
        assert t[i] in multiset(users);
        assert t[i] in users;
      } else if i < |users| {
        assert t[i] == users[i];
      }
    }
  }

  /** Toggling twice gives the users back. */
  lemma ToggleTwice(users: seq<string>, m: string)
    requires m !in users
    ensures Toggle(Toggle(users, m), m) == users
  {
    RemoveLast(users, m);
  }

  /** The starting DPS section reads back as its heading with no users. */
  lemma ReadInitialDps(limits: Limits)
    ensures ReadSection(InitialSections(limits).Get(0)) == Some(("**DPS**", []))
  {
    AsciiNoLineBreak("**DPS**");
    ReadInitialSection("**DPS**", Some(limits.dps));
  }

  /** The starting healer section reads back as its heading with no users. */
  lemma ReadInitialHealers(limits: Limits)
    ensures ReadSection(InitialSections(limits).Get(1)) == Some(("**Healers**", []))
  {
    AsciiNoLineBreak("**Healers**");
    ReadInitialSection("**Healers**", Some(limits.healer));
  }

  /** One user can sit in two sections: from two empty sections, a click on
      each puts the user into both, since a click touches only its own
      section. */
  lemma SeveralSections(s0: Sections, limits: Limits, m: string, k0: nat, k1: nat, h0: string, h1: string)
    requires k0 < 4 && k1 < 4 && k0 != k1
    requires ReadSection(s0.Get(k0)) == Some((h0, [])) && ReadSection(s0.Get(k1)) == Some((h1, []))
    requires NoLineBreak(h0) && NoLineBreak(h1) && WellFormedUser(m)
    requires SectionLimit(limits, k0).None? || SectionLimit(limits, k0).value >= 1
    requires SectionLimit(limits, k1).None? || SectionLimit(limits, k1).value >= 1
    ensures var s1 := Callback(s0, limits, ButtonIds[k0], m).0;
            var s2 := Callback(s1, limits, ButtonIds[k1], m).0;
            ReadSection(s2.Get(k0)) == Some((h0, [m])) && ReadSection(s2.Get(k1)) == Some((h1, [m]))
  {
    assert Toggle([], m) == [m];
    CallbackToggles(s0, limits, k0, m, h0, []);
    var s1 := Callback(s0, limits, ButtonIds[k0], m).0;
    assert ReadSection(s1.Get(k0)) == Some((h0, [m]));
    assert s1.Get(k1) == s0.Get(k1);
    CallbackToggles(s1, limits, k1, m, h1, []);
    var s2 := Callback(s1, limits, ButtonIds[k1], m).0;
    assert s2.Get(k0) == s1.Get(k0);
  }

  // ---------------------------------------------------------------------------
  // The view
  // ---------------------------------------------------------------------------

  /** The header texts: name, relative time, leader, and the description when
      it is not empty. */
  function HeaderTexts(name: string, time: int, leader: string, description: string): (r: seq<string>)
    ensures |r| == if description == "" then 3 else 4
  {
    ["## " + name, "**Time:** " + FormatDt(time, "R"), "**Leader:** " + leader]
    + (if description != "" then [description] else [])
  }

  /** The header shows the name as a heading, the leader, and the
      description when there is one; its time line carries the timestamp in
      the relative-time markup, where the  `<t:N:R>` search finds it again. */
  lemma HeaderTextsShow(name: string, time: int, leader: string, description: string)
    requires time >= 0
    ensures var r := HeaderTexts(name, time, leader, description);
            r[0] == "## " + name && r[2] == "**Leader:** " + leader
            && (description != "" ==> r[3] == description)
            && SearchTimestamp(r[1]) == Some(time)
  {
    var d := IntToString(time);
    assert '<' !in "**Time:** ";
    SearchSkips("**Time:** ", FormatDt(time, "R"));
    assert FormatDt(time, "R") == "<t:" + d + ":R>" + "";
    NatToStringValue(time);
    MatchTimestampOf(d, "");
  }

  class GroupLayoutView {
    var name: string
    var time: int
    var description: string
    var leader: string
    var limitDps: int
    var limitHealers: int
    var limitTanks: int
    var header: seq<string>
    var dpsText: string
    var healerText: string
    var tankText: string
    var waitingText: string

    function Texts(): Sections
      reads this
    {
      PerSection(dpsText, healerText, tankText, waitingText)
    }

    function Caps(): Limits
      reads this
    {
      Limits(limitDps, limitHealers, limitTanks)
    }

    constructor (name: string, time: int, leader: string, limits: Limits, description: string)
      ensures this.name == name && this.time == time && this.leader == leader
      ensures this.description == description && Caps() == limits
      ensures header == HeaderTexts(name, time, leader, description)
      ensures Texts() == InitialSections(limits)
    {
      this.name := name;
      this.time := time;
      this.leader := leader;
      this.description := description;
      limitDps, limitHealers, limitTanks := limits.dps, limits.healer, limits.tank;
      header := HeaderTexts(name, time, leader, description);
      dpsText := CountLine("**DPS**", 0, Some(limits.dps));
      healerText := CountLine("**Healers**", 0, Some(limits.healer));
      tankText := CountLine("**Tanks**", 0, Some(limits.tank));
      waitingText := CountLine("**Waiting List**", 0, None);
    }

    method SetText(k: nat, s: string)
      requires k < 4
      modifies this
      ensures Texts() == old(Texts()).Set(k, s)
      ensures Caps() == old(Caps()) && header == old(header)
      ensures name == old(name) && time == old(time) && leader == old(leader) && description == old(description)
    {
      if k == 0 { dpsText := s; }
      else if k == 1 { healerText := s; }
      else if k == 2 { tankText := s; }
      else { waitingText := s; }
    }

    /** `button_callback`: reads the clicked section, rejects a full one, and
        otherwise toggles the user and rewrites that section. */
    method ButtonCallback(id: string, mention: string) returns (reply: Reply)
      modifies this
      ensures (Texts(), reply) == Callback(old(Texts()), Caps(), id, mention)
      ensures Caps() == old(Caps()) && header == old(header)
      ensures name == old(name) && time == old(time) && leader == old(leader) && description == old(description)
    {
      var k := ButtonIndex(id);
      if k.None? {
        return Ignored;
      }
      var limit := SectionLimit(Caps(), k.value);
      var section := ReadSection(Texts().Get(k.value));
      if section.None? {
        return Failed;
      }
      var (head, users) := section.value;
      if limit.Some? && |users| >= limit.value && mention !in users {
        return Full(FullMessage(id));
      }
      if mention !in users {
        users := users + [mention];
      } else {
        users := RemoveFirst(users, mention);
      }
      SetText(k.value, SectionContent(head, users, limit));
      reply := Updated;
    }
  }

  /** `on_submit` of the create modal: a time that failed to parse, or one
      strictly before now, is rejected; otherwise the new view. */
  method SubmitCreate(name: string, description: string, leader: string, limitText: string,
                      time: Option<int>, now: int)
    returns (view: Option<GroupLayoutView>)
    ensures view.Some? <==> time.Some? && now <= time.value
    ensures view.Some? ==> fresh(view.value) && view.value.name == name && view.value.time == time.value
                           && view.value.description == description && view.value.leader == leader
                           && view.value.header == HeaderTexts(name, time.value, leader, description)
                           && view.value.Caps() == ParseLimit(limitText)
                           && view.value.Texts() == InitialSections(ParseLimit(limitText))
  {
    var limits := ParseLimit(limitText);
    if time.None? || now > time.value {
      return None;
    }
    var v := new GroupLayoutView(name, time.value, leader, limits, description);
    view := Some(v);
  }
}
