/** How a team group is shown: `GroupEmbedController._create_embed` and
    `update_members`. Every piece is a function on values; the controller
    class in TeamController stores what `CreateEmbed` returns. Emojis are
    kept as opaque strings. */
module TeamRender {
  import opened Wrappers
  import opened Text
  import opened TeamRoster

  // ---------------------------------------------------------------------------
  // Emoji strings (the `LukEmojis` attributes the renderer uses)
  // ---------------------------------------------------------------------------

  const DpsEmoji: string := ":dps:"
  const SupEmoji: string := ":sup:"
  const TankEmoji: string := ":tank:"
  const HelpEmoji: string := "<:lukchan_wow:1421678029247221790>"
  const AlertEmoji: string := ":alert:"

  /** `IMAGINE_EMOJIS["airona"]`, in table order. */
  const AironaEmojis: seq<string> :=
    [":airona:", ":airona_angry:", ":airona3:", ":airona_grin:", ":airona_laugh:", ":airona_wauw:"]

  /** `IMAGINE_EMOJIS["tina"]`, in table order. */
  const TinaEmojis: seq<string> :=
    [":tina:", ":tina_smile:", ":tina_wink:", ":tina_grin:", ":tina_laugh:", ":tina_wauw:"]

  // ---------------------------------------------------------------------------
  // members.sort(key=lambda m: m.help)
  // ---------------------------------------------------------------------------

  /** The entries whose help flag is `help`, in their original order. */
  function Keep(s: seq<GroupUser>, help: bool): (r: seq<GroupUser>)
    ensures |r| <= |s|
    ensures forall i :: 0 <= i < |r| ==> r[i].help == help
  {
    if s == [] then [] else (if s[0].help == help then [s[0]] else []) + Keep(s[1..], help)
  }

  /** Python's stable sort on the key `help` (False before True). */
  function SortByHelp(s: seq<GroupUser>): (r: seq<GroupUser>)
    ensures |r| == |s|
  {
    KeepSplits(s);
    Keep(s, false) + Keep(s, true)
  }

  lemma {:induction false} KeepConcat(a: seq<GroupUser>, b: seq<GroupUser>, help: bool)
    ensures Keep(a + b, help) == Keep(a, help) + Keep(b, help)
    decreases |a|
  {
    if a == [] {
      assert a + b == b;
    } else {
      assert (a + b)[1..] == a[1..] + b;
      KeepConcat(a[1..], b, help);
    }
  }

  /** Keeping by one flag a sequence whose entries all have a flag. */
  lemma {:induction false} KeepUniform(s: seq<GroupUser>, flag: bool, help: bool)
    requires forall i :: 0 <= i < |s| ==> s[i].help == flag
    ensures Keep(s, help) == if flag == help then s else []
    decreases |s|
  {
    if s != [] {
      KeepUniform(s[1..], flag, help);
      assert [s[0]] + s[1..] == s;
    }
  }

  lemma {:induction false} KeepSplits(s: seq<GroupUser>)
    ensures multiset(Keep(s, false)) + multiset(Keep(s, true)) == multiset(s)
    ensures |Keep(s, false)| + |Keep(s, true)| == |s|
    decreases |s|
  {
    if s != [] {
      KeepSplits(s[1..]);
      assert s == [s[0]] + s[1..];
    }
  }

  /** The sort is a permutation of the list. */
  lemma SortByHelpPermutation(s: seq<GroupUser>)
    ensures multiset(SortByHelp(s)) == multiset(s)
  {
    KeepSplits(s);
  }

  /** The non-helpers come first: position `i` holds a helper exactly when
      `i` is at least the number of non-helpers, so no helper precedes a
      non-helper. */
  lemma SortByHelpOrder(s: seq<GroupUser>)
    ensures forall i :: 0 <= i < |s| ==> (SortByHelp(s)[i].help <==> i >= |Keep(s, false)|)
    ensures forall i, j :: 0 <= i < j < |s| && SortByHelp(s)[i].help ==> SortByHelp(s)[j].help
  {
    var f, t := Keep(s, false), Keep(s, true);
    var r := SortByHelp(s);
    assert r == f + t;
    forall i | 0 <= i < |s| ensures r[i].help <==> i >= |f| {
      if i < |f| {
        assert r[i] == f[i];
      } else {
        assert r[i] == t[i - |f|];
      }
    }
  }

  /** The sort is stable: the non-helpers keep their join order, and so do
      the helpers. */
  lemma SortByHelpStable(s: seq<GroupUser>)
    ensures Keep(SortByHelp(s), false) == Keep(s, false)
    ensures Keep(SortByHelp(s), true) == Keep(s, true)
  {
    var f, t := Keep(s, false), Keep(s, true);
    KeepConcat(f, t, false);
    KeepConcat(f, t, true);
    KeepUniform(f, false, false);
    KeepUniform(f, false, true);
    KeepUniform(t, true, false);
    KeepUniform(t, true, true);
    assert f + [] == f;
    assert [] + t == t;
  }

  /** Sorting an already sorted list changes nothing. */
  lemma SortByHelpIdempotent(s: seq<GroupUser>)
    ensures SortByHelp(SortByHelp(s)) == SortByHelp(s)
  {
    SortByHelpStable(s);
  }

  // ---------------------------------------------------------------------------
  // One member line
  // ---------------------------------------------------------------------------

  /** `int(limit)` for a finite limit, `None` for infinity. */
  function LimitValue(l: Limit): (r: Option<int>)
    ensures r.None? <==> l.Unlimited?
    ensures l.Finite? ==> r == Some(l.n)
  {
    match l
    case Unlimited => None
    case Finite(n) => Some(n)
  }

  /** `limit or float("inf")`: a missing or zero limit never alerts. */
  function AlertThreshold(limit: Option<int>): (r: Option<int>)
    ensures r.None? <==> (limit.None? || limit == Some(0))
    ensures r.Some? ==> r == limit
  {
    match limit
    case None => None
    case Some(n) => if n == 0 then None else Some(n)
  }

  /** `index >= (limit or inf) and not member.help`. */
  predicate Alerted(index: int, u: GroupUser, limit: Option<int>) {
    !u.help && match AlertThreshold(limit)
               case None => false
               case Some(n) => index >= n
  }

  /** Python list indexing: negative indices count from the end, anything
      outside raises IndexError (`None` here). */
  function PyIndex(table: seq<string>, i: int): (r: Option<string>)
    ensures r.Some? <==> -|table| <= i < |table|
    ensures r.Some? && i >= 0 ==> r.value == table[i]
    ensures r.Some? && i < 0 ==> r.value == table[|table| + i]
  {
    if 0 <= i < |table| then Some(table[i])
    else if -|table| <= i < 0 then Some(table[|table| + i])
    else None
  }

  /** The text for an optional imagine index: empty when unset. */
  function ImagineText(table: seq<string>, index: Option<int>): (r: Option<string>)
    ensures index.None? ==> r == Some("")
    ensures index.Some? ==> r == PyIndex(table, index.value)
  {
    match index
    case None => Some("")
    case Some(i) => PyIndex(table, i)
  }

  /** Both imagine indices select an emoji, so the line renders. */
  predicate Renders(u: GroupUser) {
    ImagineText(AironaEmojis, u.airona).Some? && ImagineText(TinaEmojis, u.tina).Some?
  }

  predicate EndsWith(s: string, suffix: string) {
    |suffix| <= |s| && s[|s| - |suffix|..] == suffix
  }

  lemma EmojisNoLineBreak()
    ensures forall k :: 0 <= k < |AironaEmojis| ==> NoLineBreak(AironaEmojis[k])
    ensures forall k :: 0 <= k < |TinaEmojis| ==> NoLineBreak(TinaEmojis[k])
    ensures NoLineBreak(HelpEmoji) && NoLineBreak(AlertEmoji)
  {
    forall k | 0 <= k < |AironaEmojis| ensures NoLineBreak(AironaEmojis[k]) {
      AsciiNoLineBreak(AironaEmojis[k]);
    }
    forall k | 0 <= k < |TinaEmojis| ensures NoLineBreak(TinaEmojis[k]) {
      AsciiNoLineBreak(TinaEmojis[k]);
    }
    AsciiNoLineBreak(HelpEmoji);
    AsciiNoLineBreak(AlertEmoji);
  }

  /** The discord mention of a user id. */
  function Mention(id: int): string {
    "<@" + IntToString(id) + ">"
  }

  /** One line of a member list: role emoji, mention, the two imagine emojis,
      the help emoji and the alert emoji, separated by single spaces. */
  function RenderLine(u: GroupUser, alert: bool): (r: Option<string>)
    ensures r.Some? <==> Renders(u)
    ensures r.Some? ==> (EndsWith(r.value, AlertEmoji) <==> alert)
    ensures r.Some? ==> |r.value| > |u.role + " " + Mention(u.id) + " "|
                        && r.value[..|u.role + " " + Mention(u.id) + " "|] == u.role + " " + Mention(u.id) + " "
  {
    var a := ImagineText(AironaEmojis, u.airona);
    var t := ImagineText(TinaEmojis, u.tina);
    if a.None? || t.None? then None
    else
      var head := u.role + " " + Mention(u.id) + " ";
      var tail := a.value + " " + t.value + " " + (if u.help then HelpEmoji else "") + " ";
      var line := head + tail + (if alert then AlertEmoji else "");
      assert line == head + (tail + (if alert then AlertEmoji else ""));
      if alert then
        assert line[|line| - |AlertEmoji|..] == AlertEmoji;
        Some(line)
      else
        assert line[|line| - 1] == ' ';
        Some(line)
  }

  lemma EmojisNoSpace()
    ensures forall k :: 0 <= k < |AironaEmojis| ==> ' ' !in AironaEmojis[k]
    ensures forall k :: 0 <= k < |TinaEmojis| ==> ' ' !in TinaEmojis[k]
    ensures ' ' !in HelpEmoji && ' ' !in AlertEmoji
  {
  }

  /** Split at its spaces, a rendered line gives back, in order, the role
      emoji, the mention, the airona and tina emojis (empty when unset), the
      help emoji (empty without help) and the alert emoji (empty without
      alert). */
  lemma RenderLineParts(u: GroupUser, alert: bool)
    requires Renders(u) && ' ' !in u.role
    ensures SplitOn(RenderLine(u, alert).value, ' ')
            == [u.role, Mention(u.id), ImagineText(AironaEmojis, u.airona).value,
                ImagineText(TinaEmojis, u.tina).value, if u.help then HelpEmoji else "",
                if alert then AlertEmoji else ""]
  {
    var m := Mention(u.id);
    var a := ImagineText(AironaEmojis, u.airona).value;
    var t := ImagineText(TinaEmojis, u.tina).value;
    var h := if u.help then HelpEmoji else "";
    var al := if alert then AlertEmoji else "";
    EmojisNoSpace();
    IntToStringNoChar(u.id, ' ');
    assert ' ' !in m;
    assert ' ' !in a && ' ' !in t;
    assert RenderLine(u, alert) == Some(u.role + " " + m + " " + (a + " " + t + " " + h + " ") + al);
    Regroup(u.role, m, a, t, h, al);
    SplitSixWords(u.role, m, a, t, h, al);
  }

  /** The words of a rendered line, regrouped from the right. */
  lemma Regroup(r: string, m: string, a: string, t: string, h: string, al: string)
    ensures r + " " + m + " " + (a + " " + t + " " + h + " ") + al
            == r + [' '] + (m + [' '] + (a + [' '] + (t + [' '] + (h + [' '] + al))))
  {
    var tail := a + " " + t + " " + h + " ";
    assert tail + al == a + [' '] + (t + [' '] + (h + [' '] + al));
    assert r + " " + m + " " + tail + al == r + [' '] + (m + [' '] + (tail + al));
  }

  lemma ImagineNoBreak(table: seq<string>, index: Option<int>)
    requires forall k :: 0 <= k < |table| ==> NoLineBreak(table[k])
    requires ImagineText(table, index).Some?
    ensures NoLineBreak(ImagineText(table, index).value)
  {
  }

  lemma HeadNoBreak(role: string, id: int)
    requires NoLineBreak(role)
    ensures NoLineBreak(role + " " + Mention(id) + " ")
  {
    IntToStringNoSpace(id);
    NoLineBreakConcat("<@", IntToString(id));
    NoLineBreakConcat("<@" + IntToString(id), ">");
    NoLineBreakConcat(role, " ");
    NoLineBreakConcat(role + " ", Mention(id));
    NoLineBreakConcat(role + " " + Mention(id), " ");
  }

  lemma TailNoBreak(a: string, t: string, h: string)
    requires NoLineBreak(a) && NoLineBreak(t) && NoLineBreak(h)
    ensures NoLineBreak(a + " " + t + " " + h + " ")
  {
    NoLineBreakConcat(a, " ");
    NoLineBreakConcat(a + " ", t);
    NoLineBreakConcat(a + " " + t, " ");
    NoLineBreakConcat(a + " " + t + " ", h);
    NoLineBreakConcat(a + " " + t + " " + h, " ");
  }

  /** A line has no line boundary unless its role emoji has one. */
  lemma RenderLineNoBreak(u: GroupUser, alert: bool)
    requires Renders(u) && NoLineBreak(u.role)
    ensures NoLineBreak(RenderLine(u, alert).value)
  {
    var a := ImagineText(AironaEmojis, u.airona).value;
    var t := ImagineText(TinaEmojis, u.tina).value;
    var h := if u.help then HelpEmoji else "";
    var head := u.role + " " + Mention(u.id) + " ";
    var tail := a + " " + t + " " + h + " ";
    EmojisNoLineBreak();
    ImagineNoBreak(AironaEmojis, u.airona);
    ImagineNoBreak(TinaEmojis, u.tina);
    HeadNoBreak(u.role, u.id);
    TailNoBreak(a, t, h);
    NoLineBreakConcat(head, tail);
    NoLineBreakConcat(head + tail, if alert then AlertEmoji else "");
  }

  /** Every entry of `s` renders. */
  predicate ListRenders(s: seq<GroupUser>) {
    forall i :: 0 <= i < |s| ==> Renders(s[i])
  }

  /** The lines of `s`, one per entry, each alerted by its list position;
      `None` when any entry raises. */
  function RenderLines(s: seq<GroupUser>, limit: Option<int>): (r: Option<seq<string>>)
    ensures r.Some? <==> ListRenders(s)
    ensures r.Some? ==> |r.value| == |s|
    ensures r.Some? ==> forall i :: 0 <= i < |s| ==>
              RenderLine(s[i], Alerted(i, s[i], limit)) == Some(r.value[i])
  {
    if ListRenders(s) then
      Some(seq(|s|, i requires 0 <= i < |s| && Renders(s[i]) => RenderLine(s[i], Alerted(i, s[i], limit)).value))
    else None
  }

  /** `update_members` on a list that is already sorted: U+200B for an
      empty list, else the lines joined by '\n'. */
  function RenderBody(s: seq<GroupUser>, limit: Option<int>): (r: Option<string>)
    ensures s == [] ==> r == Some(ZeroWidthSpace)
    ensures r.Some? <==> ListRenders(s)
  {
    if s == [] then Some(ZeroWidthSpace)
    else
      match RenderLines(s, limit)
      case None => None
      case Some(lines) => Some(Join("\n", lines))
  }

  /** The body holds exactly one line per member, in list order, as long as no
      role emoji contains a line boundary. */
  lemma RenderBodyLines(s: seq<GroupUser>, limit: Option<int>)
    requires s != [] && ListRenders(s)
    requires forall i :: 0 <= i < |s| ==> NoLineBreak(s[i].role)
    ensures RenderBody(s, limit).Some?
    ensures var lines := SplitLines(RenderBody(s, limit).value);
            |lines| == |s| &&
            forall i :: 0 <= i < |s| ==> Some(lines[i]) == RenderLine(s[i], Alerted(i, s[i], limit))
  {
    var lines := RenderLines(s, limit).value;
    forall i | 0 <= i < |lines| ensures lines[i] != [] && NoLineBreak(lines[i]) {
      assert RenderLine(s[i], Alerted(i, s[i], limit)) == Some(lines[i]);
      RenderLineNoBreak(s[i], Alerted(i, s[i], limit));
    }
    SplitLinesJoin(lines);
  }

  /** On a sorted list, helpers never alert, and a non-helper alerts exactly
      when at least `limit` non-helpers joined before it. */
  lemma SortedAlerts(s: seq<GroupUser>, limit: Option<int>, i: int)
    requires 0 <= i < |s|
    ensures var r := SortByHelp(s);
            Alerted(i, r[i], limit) <==>
              (AlertThreshold(limit).Some? && AlertThreshold(limit).value <= i < |Keep(s, false)|)
  {
    SortByHelpStable(s);
  }

  // ---------------------------------------------------------------------------
  // The card
  // ---------------------------------------------------------------------------

  datatype Field = Field(name: string, value: string)

  /** The embed, without its colour and without the author link. */
  datatype Card = Card(title: string, description: string, fields: seq<Field>,
                       authorName: string, authorIcon: string)

  function EmojiOf(c: Category): string {
    match c
    case Dps => DpsEmoji
    case Healer => SupEmoji
    case Tank => TankEmoji
  }

  function LabelOf(c: Category): string {
    match c
    case Dps => "Damage"
    case Healer => "Support"
    case Tank => "Tank"
  }

  /** A field name: `{emoji} {caption} ({count})` or `{emoji} {caption} ({count}/{limit})`. */
  function Heading(emoji: string, caption: string, count: nat, limit: Option<int>): string {
    emoji + " " + caption + " (" + IntToString(count)
    + (if limit.Some? then "/" + IntToString(limit.value) else "") + ")"
  }

  /** What comes after the last '/' of a heading is the limit and a ')'; a
      heading without a limit has no '/' at all. */
  lemma HeadingLimit(emoji: string, caption: string, count: nat, limit: Option<int>)
    requires '/' !in emoji && '/' !in caption
    ensures var h := Heading(emoji, caption, count, limit);
            match limit
            case None => '/' !in h
            case Some(n) =>
              RSplitOnce(h, '/') == [emoji + " " + caption + " (" + IntToString(count), IntToString(n) + ")"]
              && ParseInt(RStripChar(IntToString(n) + ")", ')')) == Some(n)
  {
    IntToStringNoChar(count, '/');
    match limit
    case None =>
    case Some(n) =>
      var h := Heading(emoji, caption, count, limit);
      IntToStringNoChar(n, '/');
      IntToStringNoChar(n, ')');
      assert h == (emoji + " " + caption + " (" + IntToString(count)) + ['/'] + (IntToString(n) + ")");
      RSplitOnceAt(emoji + " " + caption + " (" + IntToString(count), IntToString(n) + ")", '/');
      RStripCharAbsent(IntToString(n), ')');
      assert RStripChar(IntToString(n) + ")", ')') == IntToString(n);
      ParseIntToString(n);
  }

  /** The time line of the description. */
  function TimeLine(t: int): string {
    "**Time:** " + FormatDt(t, "f") + " (" + FormatDt(t, "R") + ")"
  }

  /** The description: the time line, a blank line, then the group's
      description when it is a non-empty string. */
  function Description(t: int, desc: Option<string>): (r: string)
    ensures |r| >= |TimeLine(t)| + 2 && r[..|TimeLine(t)| + 2] == TimeLine(t) + "\n\n"
    ensures r[|TimeLine(t)| + 2..] == if desc.Some? then desc.value else ""
  {
    var head := TimeLine(t) + "\n\n";
    var r := head + (if desc.Some? && desc.value != "" then desc.value else "");
    assert r[..|head|] == head;
    r
  }

  /** The field of one category, for a list that is already sorted. */
  function CategoryField(c: Category, sorted: seq<GroupUser>, limit: Limit): (r: Option<Field>)
    ensures r.Some? <==> RenderBody(sorted, LimitValue(limit)).Some?
    ensures r.Some? ==> r.value.name == Heading(EmojiOf(c), LabelOf(c), |sorted|, LimitValue(limit))
                        && Some(r.value.value) == RenderBody(sorted, LimitValue(limit))
  {
    match RenderBody(sorted, LimitValue(limit))
    case None => None
    case Some(b) => Some(Field(Heading(EmojiOf(c), LabelOf(c), |sorted|, LimitValue(limit)), b))
  }

  /** Sorting keeps the entries, so it keeps whether they all render. */
  lemma SortKeepsRenders(s: seq<GroupUser>)
    ensures ListRenders(SortByHelp(s)) <==> ListRenders(s)
  {
    var r := SortByHelp(s);
    SortByHelpPermutation(s);
    if ListRenders(s) {
      forall i | 0 <= i < |r| ensures Renders(r[i]) {
        assert r[i] in multiset(s);
      }
    }
    if ListRenders(r) {
      forall i | 0 <= i < |s| ensures Renders(s[i]) {
        assert s[i] in multiset(r);
      }
    }
  }

  /** `_create_embed`: the record afterwards and the card. Each field sorts
      its list in place before rendering it, so when a line raises (an
      imagine index out of range) the lists up to and including that one are
      sorted and there is no card. */
  function CreateEmbed(d: GroupData): (GroupData, Option<Card>) {
    var m := d.members;
    var s1, s2, s3 := SortByHelp(m.dps), SortByHelp(m.healer), SortByHelp(m.tank);
    var f1 := CategoryField(Dps, s1, d.dpsLimit);
    var f2 := CategoryField(Healer, s2, d.healerLimit);
    var f3 := CategoryField(Tank, s3, d.tankLimit);
    if f1.None? then (d.(members := m.(dps := s1)), None)
    else if f2.None? then (d.(members := m.(dps := s1, healer := s2)), None)
    else if f3.None? then (d.(members := Members(s1, s2, s3)), None)
    else
      (d.(members := Members(s1, s2, s3)),
       Some(Card(d.name, Description(d.time, d.desc), [f1.value, f2.value, f3.value],
                 d.owner.name, d.owner.iconUrl)))
  }

  /** Building the card changes only the member lists, and each list only by
      a permutation. */
  lemma CreateEmbedKeepsRecord(d: GroupData)
    ensures var d' := CreateEmbed(d).0;
            d' == d.(members := d'.members)
            && multiset(d'.members.dps) == multiset(d.members.dps)
            && multiset(d'.members.healer) == multiset(d.members.healer)
            && multiset(d'.members.tank) == multiset(d.members.tank)
  {
    var m := d.members;
    var s1, s2, s3 := SortByHelp(m.dps), SortByHelp(m.healer), SortByHelp(m.tank);
    SortByHelpPermutation(m.dps);
    SortByHelpPermutation(m.healer);
    SortByHelpPermutation(m.tank);
    var m' := CreateEmbed(d).0.members;
    assert m' == m.(dps := s1) || m' == m.(dps := s1, healer := s2) || m' == Members(s1, s2, s3);
    assert CreateEmbed(d).0 == d.(members := m');
  }

  /** There is a card exactly when every member's line renders; then all
      three lists are sorted, and the card carries the name, the
      description, the three headings with their counts and limits, and the
      rendered bodies of the sorted lists. */
  lemma CreateEmbedCard(d: GroupData)
    ensures var (d', card) := CreateEmbed(d);
            var m := d.members;
            (card.Some? <==> ListRenders(m.dps) && ListRenders(m.healer) && ListRenders(m.tank))
            && (card.Some? ==>
                  d'.members == Members(SortByHelp(m.dps), SortByHelp(m.healer), SortByHelp(m.tank))
                  && card.value.title == d.name
                  && card.value.description == Description(d.time, d.desc)
                  && |card.value.fields| == 3
                  && forall c ::
                       card.value.fields[Rank(c)].name == Heading(EmojiOf(c), LabelOf(c), |m.Get(c)|, LimitValue(d.LimitOf(c)))
                       && Some(card.value.fields[Rank(c)].value) == RenderBody(SortByHelp(m.Get(c)), LimitValue(d.LimitOf(c))))
  {
    SortKeepsRenders(d.members.dps);
    SortKeepsRenders(d.members.healer);
    SortKeepsRenders(d.members.tank);
    CreateEmbedFields(d);
    forall c ensures |SortByHelp(d.members.Get(c))| == |d.members.Get(c)| {
      SortByHelpPermutation(d.members.Get(c));
      assert |multiset(SortByHelp(d.members.Get(c)))| == |multiset(d.members.Get(c))|;
    }
    if CreateEmbed(d).1.Some? {
      var fields := CreateEmbed(d).1.value.fields;
      forall c ensures Some(fields[Rank(c)]) == CategoryField(c, SortByHelp(d.members.Get(c)), d.LimitOf(c)) {
        match c
        case Dps =>
        case Healer =>
        case Tank =>
      }
    }
  }

  /** The fields of a built card are the three categories' fields for the
      sorted lists, in the order DPS, healer, tank. */
  lemma CreateEmbedFields(d: GroupData)
    ensures var card := CreateEmbed(d).1;
            var m := d.members;
            card.Some? ==>
              Some(card.value.fields[0]) == CategoryField(Dps, SortByHelp(m.dps), d.dpsLimit)
              && Some(card.value.fields[1]) == CategoryField(Healer, SortByHelp(m.healer), d.healerLimit)
              && Some(card.value.fields[2]) == CategoryField(Tank, SortByHelp(m.tank), d.tankLimit)
  {
  }

  /** Building the card a second time from the record the first build left
      behind gives the same record and the same card. */
  lemma CreateEmbedStable(d: GroupData)
    requires CreateEmbed(d).1.Some?
    ensures CreateEmbed(CreateEmbed(d).0) == CreateEmbed(d)
  {
    SortByHelpIdempotent(d.members.dps);
    SortByHelpIdempotent(d.members.healer);
    SortByHelpIdempotent(d.members.tank);
    CreateEmbedCard(d);
  }
}
