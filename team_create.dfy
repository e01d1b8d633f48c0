/** The team creation flow (`CreateGroupModal`, `JoinGroupView`): the preset
    text of the limits field, the create parser, the future-time check, the
    class table behind the role select and the imagine select. */
module TeamCreate {
  import opened Wrappers
  import opened Text
  import opened TeamRoster
  import opened TeamRender
  import opened LimitText
  import opened TeamController

  // ---------------------------------------------------------------------------
  // Presets (`PRESETS`, `_get_preset`)
  // ---------------------------------------------------------------------------

  datatype PresetField = PresetField(name: string, defaultLimit: int)

  /** The entries of `PRESETS`. */
  const Bpsr5: seq<PresetField> := [PresetField("DPS", 3), PresetField("Sup", 1), PresetField("Tank", 1)]
  const Bpsr10: seq<PresetField> := [PresetField("DPS", 6), PresetField("Sup", 2), PresetField("Tank", 2)]
  const Bpsr15: seq<PresetField> := [PresetField("DPS", 9), PresetField("Sup", 3), PresetField("Tank", 3)]
  const Bpsr20: seq<PresetField> := [PresetField("DPS", 12), PresetField("Sup", 4), PresetField("Tank", 4)]

  /** `PRESETS.get(preset, PRESETS[TeamPreset.BPSR5])`: an unknown preset
      falls back to "bpsr-5". */
  function PresetFields(preset: string): (r: seq<PresetField>)
    ensures |r| == 3 && r[0].name == "DPS" && r[1].name == "Sup" && r[2].name == "Tank"
    ensures preset !in {"bpsr-10", "bpsr-15", "bpsr-20"} ==> r == Bpsr5
  {
    if preset == "bpsr-10" then Bpsr10
    else if preset == "bpsr-15" then Bpsr15
    else if preset == "bpsr-20" then Bpsr20
    else Bpsr5
  }

  /** The tokens `f"{name}:{default_limit}"`, in order. */
  function FieldTokens(fields: seq<PresetField>): (r: seq<string>)
    ensures |r| == |fields|
    ensures forall i :: 0 <= i < |fields| ==> r[i] == FormatLimit(Finite(fields[i].defaultLimit), fields[i].name)
  {
    if fields == [] then []
    else [fields[0].name + ":" + IntToString(fields[0].defaultLimit)] + FieldTokens(fields[1..])
  }

  /** `_get_preset`: the default text of the limits field. */
  function PresetText(preset: string): string {
    Join(" ", FieldTokens(PresetFields(preset)))
  }

  /** The limits a preset lists. */
  function PresetLimits(preset: string): Limits {
    var f := PresetFields(preset);
    Limits(Finite(f[0].defaultLimit), Finite(f[1].defaultLimit), Finite(f[2].defaultLimit))
  }

  /** The preset text is the three tokens the edit modal would write for the
      preset's limits. */
  lemma PresetTextWritten(preset: string)
    ensures var l := PresetLimits(preset);
            PresetText(preset) == Join(" ", [FormatLimit(l.dps, "DPS"), FormatLimit(l.healer, "Sup"),
                                            FormatLimit(l.tank, "Tank")])
  {
    var t := FieldTokens(PresetFields(preset));
    assert t == [t[0], t[1], t[2]];
  }

  // ---------------------------------------------------------------------------
  // The create parser (`CreateGroupModal.parse_limit`)
  // ---------------------------------------------------------------------------

  /** The words the create parser takes for the healer list, as written. */
  const CreateHealerKeys: set<string> := {"healer"}

  /** The create modal's `parse_limit`, as written. */
  function ParseCreateLimits(text: string): Limits {
    ParseLimits(text, CreateHealerKeys)
  }

  /** The token loop of the create modal's `parse_limit`. */
  method ParseCreateLimitsLoop(text: string) returns (r: Limits)
    ensures r == ParseCreateLimits(text)
  {
    r := ParseLimitsLoop(text, CreateHealerKeys);
  }

  /** An empty or blank field gives 3, 1, 1. */
  lemma CreateParseEmpty(text: string)
    requires IsBlank(text)
    ensures ParseCreateLimits(text) == Limits(Finite(3), Finite(1), Finite(1))
  {
    ParseLimitsBlank(text, CreateHealerKeys);
  }

  /** As written, the create parser ignores the `Sup` token of the preset
      text, so every preset gets a healer limit of 1, whatever it lists. */
  lemma PresetHealerIgnored(preset: string)
    ensures ParseCreateLimits(PresetText(preset)) == PresetLimits(preset).(healer := Finite(1))
  {
    var l := PresetLimits(preset);
    PresetTextWritten(preset);
    ParseWrittenLimits(l.dps, l.healer, l.tank, CreateHealerKeys);
  }

  /** The "bpsr-10" preset lists 2 healers, but its own text makes 1. */
  lemma PresetHealerMismatch()
    ensures PresetLimits("bpsr-10").healer == Finite(2)
    ensures ParseCreateLimits(PresetText("bpsr-10")).healer == Finite(1)
  {
    PresetHealerIgnored("bpsr-10");
  }

  /** The words that evidently should name the healer list: the placeholder's
      `Healer` and the presets' `Sup`. */
  const FixedHealerKeys: set<string> := {"healer", "sup"}

  /** The create parser with `sup` accepted as well. */
  function ParseCreateLimitsFixed(text: string): Limits {
    ParseLimits(text, FixedHealerKeys)
  }

  /** With `sup` accepted, every preset's own text yields its limits. */
  lemma PresetRoundTripFixed(preset: string)
    ensures ParseCreateLimitsFixed(PresetText(preset)) == PresetLimits(preset)
  {
    var l := PresetLimits(preset);
    PresetTextWritten(preset);
    ParseWrittenLimits(l.dps, l.healer, l.tank, FixedHealerKeys);
  }

  // ---------------------------------------------------------------------------
  // Submitting the modal (`CreateGroupModal.on_submit`)
  // ---------------------------------------------------------------------------

  /** The part of `on_submit` after the limits are parsed: `time` is what
      the date parser made of the time field (`None` when it failed), `now`
      the current timestamp. A time strictly before now is rejected;
      otherwise a new controller holds the group, and its embed is built for
      the reply. */
  method SubmitGroup(name: string, description: string, owner: Owner, l: Limits, time: Option<int>, now: int)
    returns (r: Option<GroupEmbedController>)
    ensures r.Some? <==> time.Some? && now <= time.value
    ensures r.Some? ==>
              var g := NewGroup(name, time.value, Some(description), l.dps, l.healer, l.tank, owner);
              fresh(r.value) && (r.value.data, r.value.embed) == TeamRender.CreateEmbed(g)
  {
    if time.None? || now > time.value {
      return None;
    }
    var c := new GroupEmbedController(name, time.value, Some(description), l.dps, l.healer, l.tank, owner);
    var card := c.Embed();
    r := Some(c);
  }

  /** A new group's embed always builds: it keeps the record, and its card
      has the group's name and time line and three empty lists. */
  lemma NewGroupCard(name: string, time: int, description: string, l: Limits, owner: Owner)
    ensures var g := NewGroup(name, time, Some(description), l.dps, l.healer, l.tank, owner);
            var (g', card) := TeamRender.CreateEmbed(g);
            g' == g && card.Some? && card.value.title == name
            && card.value.description == Description(time, Some(description))
            && forall c :: card.value.fields[Rank(c)] ==
                 Field(Heading(EmojiOf(c), LabelOf(c), 0, LimitValue(g.LimitOf(c))), ZeroWidthSpace)
  {
    var g := NewGroup(name, time, Some(description), l.dps, l.healer, l.tank, owner);
    CreateEmbedCard(g);
  }

  /** `on_submit`, as written: the limits come from the create parser, which
      takes only `healer` for the healer list. */
  method CreateGroupSubmit(name: string, description: string, owner: Owner, fieldsText: string,
                           time: Option<int>, now: int)
    returns (r: Option<GroupEmbedController>)
    ensures r.Some? <==> time.Some? && now <= time.value
    ensures r.Some? ==>
              var l := ParseCreateLimits(fieldsText);
              var g := NewGroup(name, time.value, Some(description), l.dps, l.healer, l.tank, owner);
              fresh(r.value) && r.value.data == g && r.value.embed == TeamRender.CreateEmbed(g).1
  {
    var l := ParseCreateLimitsLoop(fieldsText);
    r := SubmitGroup(name, description, owner, l, time, now);
    if r.Some? {
      NewGroupCard(name, time.value, description, l, owner);
    }
  }

  /** `on_submit` with `sup` accepted for the healer list, as the presets
      evidently intend (`ParseCreateLimitsFixed`). */
  method CreateGroupSubmitFixed(name: string, description: string, owner: Owner, fieldsText: string,
                                time: Option<int>, now: int)
    returns (r: Option<GroupEmbedController>)
    ensures r.Some? <==> time.Some? && now <= time.value
    ensures r.Some? ==>
              var l := ParseCreateLimitsFixed(fieldsText);
              var g := NewGroup(name, time.value, Some(description), l.dps, l.healer, l.tank, owner);
              fresh(r.value) && r.value.data == g && r.value.embed == TeamRender.CreateEmbed(g).1
  {
    var l := ParseLimitsLoop(fieldsText, FixedHealerKeys);
    r := SubmitGroup(name, description, owner, l, time, now);
    if r.Some? {
      NewGroupCard(name, time.value, description, l, owner);
    }
  }

  // ---------------------------------------------------------------------------
  // The role select (`_role_mapping`, `JoinGroupView.select_role`)
  // ---------------------------------------------------------------------------

  datatype ClassInfo = ClassInfo(id: string, name: string, role: string, emoji: string)

  /** `_role_mapping`, in its order; the values of the role select. */
  const RoleMapping: seq<ClassInfo> := [
    ClassInfo("sb", "Stormblade", "dps", ":sb:"),
    ClassInfo("fm", "Frost Mage", "dps", ":fm:"),
    ClassInfo("wk", "Wind Knight", "dps", ":wk:"),
    ClassInfo("mm", "Marksman", "dps", ":mm:"),
    ClassInfo("vo", "Verdant Oracle", "healer", ":vo:"),
    ClassInfo("bp", "Beat Performer", "healer", ":bp:"),
    ClassInfo("sk", "Shield Knight", "tank", ":sk:"),
    ClassInfo("hg", "Heavy Guardian", "tank", ":hg:")
  ]

  /** `_role_mapping[id]`; a KeyError is `None`. */
  function LookupClass(id: string): (r: Option<ClassInfo>)
    ensures r.Some? ==> r.value.id == id && r.value in RoleMapping
    ensures r.None? ==> forall k :: 0 <= k < |RoleMapping| ==> RoleMapping[k].id != id
  {
    LookupIn(RoleMapping, id)
  }

  function LookupIn(table: seq<ClassInfo>, id: string): (r: Option<ClassInfo>)
    ensures r.Some? ==> r.value.id == id && r.value in table
    ensures r.None? ==> forall k :: 0 <= k < |table| ==> table[k].id != id
  {
    if table == [] then None
    else if table[0].id == id then Some(table[0])
    else LookupIn(table[1..], id)
  }

  /** Entries before the first one with `id` do not count. */
  lemma {:induction false} LookupInAt(table: seq<ClassInfo>, k: nat)
    requires k < |table| && forall j :: 0 <= j < k ==> table[j].id != table[k].id
    ensures LookupIn(table, table[k].id) == Some(table[k])
    decreases k
  {
    if k > 0 {
      assert forall j :: 0 <= j < k - 1 ==> table[1..][j] == table[j + 1];
      LookupInAt(table[1..], k - 1);
    }
  }

  /** Every option value of the role select finds its own class. */
  lemma RoleMappingLookup()
    ensures forall k :: 0 <= k < |RoleMapping| ==> LookupClass(RoleMapping[k].id) == Some(RoleMapping[k])
  {
    forall k | 0 <= k < |RoleMapping| ensures LookupClass(RoleMapping[k].id) == Some(RoleMapping[k]) {
      assert forall j :: 0 <= j < k ==> RoleMapping[j].id != RoleMapping[k].id;
      LookupInAt(RoleMapping, k);
    }
  }

  /** Every class names one of the three lists: four damage classes, two
      support classes and two tank classes. */
  lemma RoleMappingCategories()
    ensures forall k :: 0 <= k < |RoleMapping| ==> CategoryOf(RoleMapping[k].role).Some?
    ensures forall k :: 0 <= k < |RoleMapping| ==>
              (CategoryOf(RoleMapping[k].role) == Some(Dps) <==> k < 4)
              && (CategoryOf(RoleMapping[k].role) == Some(Healer) <==> 4 <= k < 6)
              && (CategoryOf(RoleMapping[k].role) == Some(Tank) <==> 6 <= k)
  {
  }

  /** `select_role`: the chosen class's role and emoji are passed to
      `add_member`, and the message is edited to `controller.embed`, which
      the change has reset, so the embed is rebuilt and every list sorted by
      the help flag; an unknown value raises before anything changes. */
  method SelectRole(controller: GroupEmbedController, user: int, value: string) returns (ok: bool)
    modifies controller
    ensures ok <==> LookupClass(value).Some?
    ensures ok ==> var info := LookupClass(value).value;
                   (controller.data, controller.embed) == TeamRender.CreateEmbed(old(controller.data).(members :=
                     TeamRoster.AddMember(old(controller.data.members), user, info.role, info.emoji)))
    ensures !ok ==> controller.data == old(controller.data) && controller.embed == old(controller.embed)
  {
    var info := LookupClass(value);
    if info.None? {
      return false;
    }
    controller.AddMember(user, info.value.role, info.value.emoji);
    var card := controller.Embed();
    ok := true;
  }

  /** Choosing a class puts the member last in that class's list. */
  lemma SelectRoleJoins(m: Members, user: int, k: nat)
    requires k < |RoleMapping|
    ensures var info := RoleMapping[k];
            var s := TeamRoster.AddMember(m, user, info.role, info.emoji).Get(CategoryOf(info.role).value);
            |s| > 0 && s[|s| - 1].id == user && s[|s| - 1].role == info.emoji
  {
    RoleMappingCategories();
    AddMemberJoins(m, user, RoleMapping[k].role, RoleMapping[k].emoji);
  }

  // ---------------------------------------------------------------------------
  // The imagine select (`JoinGroupView.select_imagine`)
  // ---------------------------------------------------------------------------

  datatype Imagines = Imagines(airona: Option<int>, tina: Option<int>)

  /** `name, index_str = value.rsplit("_", 1); index = int(index_str)`;
      `None` when the unpacking or `int()` raises. */
  function ImagineChoice(value: string): (r: Option<(string, int)>)
    ensures r.Some? ==> |RSplitOnce(value, '_')| == 2 && r.value.0 == RSplitOnce(value, '_')[0]
                        && ParseInt(RSplitOnce(value, '_')[1]) == Some(r.value.1)
  {
    var p := RSplitOnce(value, '_');
    if |p| != 2 then None
    else
      match ParseInt(p[1])
      case None => None
      case Some(i) => Some((p[0], i))
  }

  /** One pass of the loop: a `tina` or `airona` choice replaces that index;
      other names are skipped. */
  function ApplyImagine(st: Imagines, value: string): Option<Imagines> {
    match ImagineChoice(value)
    case None => None
    case Some((name, i)) =>
      if name == "tina" then Some(st.(tina := Some(i)))
      else if name == "airona" then Some(st.(airona := Some(i)))
      else Some(st)
  }

  /** The whole loop; `None` when a value raises. */
  function ApplyImagines(st: Imagines, values: seq<string>): Option<Imagines>
    decreases |values|
  {
    if values == [] then Some(st)
    else
      match ApplyImagine(st, values[0])
      case None => None
      case Some(next) => ApplyImagines(next, values[1..])
  }

  /** The selection read from the select's values, both starting unset. */
  function SelectImagine(values: seq<string>): Option<Imagines> {
    ApplyImagines(Imagines(None, None), values)
  }

  /** The loop of `select_imagine`. */
  method SelectImagineLoop(values: seq<string>) returns (r: Option<Imagines>)
    ensures r == SelectImagine(values)
  {
    var st := Imagines(None, None);
    var i := 0;
    while i < |values|
      invariant 0 <= i <= |values|
      invariant ApplyImagines(st, values[i..]) == SelectImagine(values)
    {
      var next := ApplyImagine(st, values[i]);
      if next.None? {
        return None;
      }
      assert values[i..][1..] == values[i + 1..];
      st := next.value;
      i := i + 1;
    }
    assert values[i..] == [];
    r := Some(st);
  }

  /** The value of an option: `f"{name}_{index}"`. */
  function ImagineValue(name: string, index: int): string {
    name + "_" + IntToString(index)
  }

  /** An option's value splits back into its name and index. */
  lemma ImagineValueRoundTrip(name: string, index: int)
    ensures ImagineChoice(ImagineValue(name, index)) == Some((name, index))
  {
    IntToStringNoChar(index, '_');
    assert ImagineValue(name, index) == name + ['_'] + IntToString(index);
    RSplitOnceAt(name, IntToString(index), '_');
    ParseIntToString(index);
  }

  /** The values the select offers: every index of both tables. */
  ghost predicate IsImagineOption(v: string) {
    exists i :: 0 <= i < 6 && (v == ImagineValue("airona", i) || v == ImagineValue("tina", i))
  }

  /** The index for `name` of the last value choosing it, if any. */
  function LastChoice(values: seq<string>, name: string): Option<int>
    decreases |values|
  {
    if values == [] then None
    else
      match ImagineChoice(values[|values| - 1])
      case Some((n, i)) =>
        if n == name then Some(i) else LastChoice(values[..|values| - 1], name)
      case None => LastChoice(values[..|values| - 1], name)
  }

  lemma {:induction false} ApplyImaginesSnoc(st: Imagines, vs: seq<string>, v: string)
    requires ApplyImagines(st, vs).Some?
    ensures ApplyImagines(st, vs + [v]) == ApplyImagine(ApplyImagines(st, vs).value, v)
    decreases |vs|
  {
    if vs == [] {
      assert [] + [v] == [v];
      assert [v][1..] == [];
    } else {
      var next := ApplyImagine(st, vs[0]).value;
      assert (vs + [v])[1..] == vs[1..] + [v];
      ApplyImaginesSnoc(next, vs[1..], v);
    }
  }

  /** For values the select offers, reading never fails, each table gets the
      index of the last value naming it (unset when none does), so a later
      choice of the same table overrides an earlier one, and every index
      lies within its table. */
  lemma {:induction false} SelectImagineLastWins(values: seq<string>)
    requires forall k :: 0 <= k < |values| ==> IsImagineOption(values[k])
    ensures SelectImagine(values) == Some(Imagines(LastChoice(values, "airona"), LastChoice(values, "tina")))
    ensures LastChoice(values, "airona").Some? ==> 0 <= LastChoice(values, "airona").value < 6
    ensures LastChoice(values, "tina").Some? ==> 0 <= LastChoice(values, "tina").value < 6
    decreases |values|
  {
    if values != [] {
      var vs, v := values[..|values| - 1], values[|values| - 1];
      assert vs + [v] == values;
      SelectImagineLastWins(vs);
      var st := SelectImagine(vs).value;
      ApplyImaginesSnoc(Imagines(None, None), vs, v);
      var i :| 0 <= i < 6 && (v == ImagineValue("airona", i) || v == ImagineValue("tina", i));
      if v == ImagineValue("airona", i) {
        ImagineValueRoundTrip("airona", i);
      } else {
        ImagineValueRoundTrip("tina", i);
      }
    }
  }

  /** `select_imagine`: both indices of the member are overwritten with the
      selection, and the message is edited to `controller.embed`, rebuilt
      when the member was found, the memoised one otherwise; a value that
      raises stops the handler before anything changes. */
  method SelectImagineHandler(controller: GroupEmbedController, user: int, values: seq<string>)
    returns (ok: bool)
    modifies controller
    ensures ok <==> SelectImagine(values).Some?
    ensures ok ==> var sel := SelectImagine(values).value;
                   var absent := Absent(old(controller.data.members), user);
                   (controller.data, controller.embed) ==
                   Memoised(old(controller.data).(members :=
                              TeamRoster.SetImagine(old(controller.data.members), user, sel.airona, sel.tina)),
                            if absent then old(controller.embed) else None)
    ensures !ok ==> controller.data == old(controller.data) && controller.embed == old(controller.embed)
  {
    var sel := SelectImagineLoop(values);
    if sel.None? {
      return false;
    }
    controller.SetImagine(user, sel.value.airona, sel.value.tina);
    var card := controller.Embed();
    ok := true;
  }

  /** `help_button`: toggles the member's help flag, and the message is
      edited to `controller.embed`, rebuilt (and the lists sorted) when the
      member was found, the memoised one otherwise. */
  method HelpButton(controller: GroupEmbedController, user: int) returns (b: Option<bool>)
    modifies controller
    ensures var (m, t) := TeamRoster.ToggleHelp(old(controller.data.members), user);
            b == t
            && (controller.data, controller.embed) ==
               Memoised(old(controller.data).(members := m), if t.None? then old(controller.embed) else None)
  {
    b := controller.ToggleHelp(user);
    var card := controller.Embed();
  }

  /** A member whose imagines were chosen from the select always renders. */
  lemma SelectedImaginesRender(values: seq<string>, u: GroupUser)
    requires forall k :: 0 <= k < |values| ==> IsImagineOption(values[k])
    ensures SelectImagine(values).Some?
    ensures var sel := SelectImagine(values).value;
            Renders(u.(airona := sel.airona, tina := sel.tina))
  {
    SelectImagineLastWins(values);
  }
}
