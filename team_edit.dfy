/** The edit modal (`EditGroupModal`): the limits field is pre-filled from the
    group's limits, parsed back on submit, and the submitted values overwrite
    the group's fields. */
module TeamEdit {
  import opened Wrappers
  import opened Text
  import opened TeamRoster
  import opened TeamRender
  import opened LimitText
  import opened TeamController
  import opened TeamCreate

  /** `_limits_to_text_input`: the DPS, Sup and Tank tokens, space separated. */
  function LimitsToText(l: Limits): string {
    FormatLimit(l.dps, "DPS") + " " + FormatLimit(l.healer, "Sup") + " " + FormatLimit(l.tank, "Tank")
  }

  lemma LimitsToTextJoin(l: Limits)
    ensures LimitsToText(l) == Join(" ", [FormatLimit(l.dps, "DPS"), FormatLimit(l.healer, "Sup"),
                                         FormatLimit(l.tank, "Tank")])
  {
    var x, y, z := FormatLimit(l.dps, "DPS"), FormatLimit(l.healer, "Sup"), FormatLimit(l.tank, "Tank");
    assert [x, y, z][1..] == [y, z] && [y, z][1..] == [z];
    assert Join(" ", [y, z]) == y + " " + z;
    assert Join(" ", [x, y, z]) == x + " " + (y + " " + z);
  }

  /** The words the edit parser takes for the healer list. */
  const EditHealerKeys: set<string> := {"sup"}

  /** The edit modal's `parse_limit`. */
  function ParseEditLimits(text: string): Limits {
    ParseLimits(text, EditHealerKeys)
  }

  /** The token loop of the edit modal's `parse_limit`. */
  method ParseEditLimitsLoop(text: string) returns (r: Limits)
    ensures r == ParseEditLimits(text)
  {
    r := ParseLimitsLoop(text, EditHealerKeys);
  }

  /** The pre-filled text parses back to the group's limits. */
  lemma EditRoundTrip(l: Limits)
    ensures ParseEditLimits(LimitsToText(l)) == l
  {
    LimitsToTextJoin(l);
    ParseWrittenLimits(l.dps, l.healer, l.tank, EditHealerKeys);
  }

  /** The create parser reads the same text with the healer limit reset to 1. */
  lemma CreateParserOnEditText(l: Limits)
    ensures ParseCreateLimits(LimitsToText(l)) == l.(healer := Finite(1))
  {
    LimitsToTextJoin(l);
    ParseWrittenLimits(l.dps, l.healer, l.tank, CreateHealerKeys);
  }

  /** The edit parser does not know the word `healer`: a lone healer token
      leaves the defaults. */
  lemma EditIgnoresHealer(l: Limit)
    ensures ParseEditLimits(FormatLimit(l, "Healer")) == Default
  {
    assert RoleWord("Healer");
    assert ToLower("Healer") == "healer";
    ParseUnknownToken(l, "Healer", EditHealerKeys);
  }

  /** The fields `on_submit` overwrites. */
  function Edited(d: GroupData, name: string, description: string, l: Limits, time: int): (r: GroupData)
    ensures r.members == d.members && r.owner == d.owner
    ensures r.name == name && r.desc == Some(description) && r.time == time
    ensures forall c :: r.LimitOf(c) == l.Get(c)
  {
    d.(name := name, desc := Some(description), dpsLimit := l.dps, healerLimit := l.healer,
       tankLimit := l.tank, time := time)
  }

  /** The writes of `on_submit`: a failed date parse or a time strictly
      before now is rejected before anything is written; otherwise name,
      description, the three limits and the time are overwritten. The
      memoised embed is not reset. */
  method ApplyEdit(controller: GroupEmbedController, name: string, description: string,
                   fieldsText: string, time: Option<int>, now: int)
    returns (ok: bool)
    modifies controller
    ensures ok <==> time.Some? && now <= time.value
    ensures !ok ==> controller.data == old(controller.data)
    ensures ok ==> controller.data == Edited(old(controller.data), name, description,
                                             ParseEditLimits(fieldsText), time.value)
    ensures controller.embed == old(controller.embed)
  {
    var l := ParseEditLimitsLoop(fieldsText);
    if time.None? || now > time.value {
      return false;
    }
    controller.data := Edited(controller.data, name, description, l, time.value);
    ok := true;
  }

  /** `on_submit` as written: the writes, then the `embed` read whose card is
      posted. A rejected edit changes nothing and posts nothing. Since the
      memo is kept, an embed built before the edit is what gets posted. */
  method EditSubmit(controller: GroupEmbedController, name: string, description: string,
                    fieldsText: string, time: Option<int>, now: int)
    returns (ok: bool, shown: Option<Card>)
    modifies controller
    ensures ok <==> time.Some? && now <= time.value
    ensures !ok ==> controller.data == old(controller.data) && controller.embed == old(controller.embed)
                    && shown == None
    ensures ok ==> (controller.data, controller.embed)
                     == Memoised(Edited(old(controller.data), name, description,
                                        ParseEditLimits(fieldsText), time.value),
                                 old(controller.embed))
                   && shown == controller.embed
  {
    ok := ApplyEdit(controller, name, description, fieldsText, time, now);
    if !ok {
      return ok, None;
    }
    shown := controller.Embed();
  }

  /** As written, an edit of a group whose embed was already built posts the
      old embed: it still carries the old name. */
  method EditShowsStaleEmbed(controller: GroupEmbedController, name: string, description: string,
                             fieldsText: string, time: int, now: int)
    returns (card: Option<Card>)
    requires controller.embed.Some? && controller.embed.value.title != name && now <= time
    modifies controller
    ensures controller.data.name == name
    ensures card.Some? && card.value.title != name
  {
    var ok;
    ok, card := EditSubmit(controller, name, description, fieldsText, Some(time), now);
  }

  /** `on_submit` with the memoised embed reset, as every other change does:
      the posted embed is built from the edited record. */
  method EditSubmitFixed(controller: GroupEmbedController, name: string, description: string,
                         fieldsText: string, time: Option<int>, now: int)
    returns (ok: bool, shown: Option<Card>)
    modifies controller
    ensures ok <==> time.Some? && now <= time.value
    ensures !ok ==> controller.data == old(controller.data) && controller.embed == old(controller.embed)
                    && shown == None
    ensures ok ==> (controller.data, controller.embed)
                     == TeamRender.CreateEmbed(Edited(old(controller.data), name, description,
                                                      ParseEditLimits(fieldsText), time.value))
                   && shown == controller.embed
  {
    ok := ApplyEdit(controller, name, description, fieldsText, time, now);
    if !ok {
      return ok, None;
    }
    controller.embed := None;
    shown := controller.Embed();
  }

  /** With the reset, the embed posted after an edit is rebuilt from the
      edited record and carries the new name and description. */
  method EditShowsNewEmbed(controller: GroupEmbedController, name: string, description: string,
                           fieldsText: string, time: int, now: int)
    returns (card: Option<Card>)
    requires now <= time
    modifies controller
    ensures card.Some? ==> card.value.title == name && card.value.description == Description(time, Some(description))
  {
    ghost var edited := Edited(controller.data, name, description, ParseEditLimits(fieldsText), time);
    var ok;
    ok, card := EditSubmitFixed(controller, name, description, fieldsText, Some(time), now);
    CreateEmbedCard(edited);
  }
}
