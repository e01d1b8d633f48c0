/** `GroupEmbedController`: the mutable holder of one team group and its
    memoised embed, and the process-wide cache of controllers by message id.
    Each method changes the fields in place and is proved against the value
    functions of TeamRoster and TeamRender. */
module TeamController {
  import opened Wrappers
  import opened TeamRoster
  import opened TeamRender

  /** The record and the embed once the `embed` property has been read: a
      built embed is kept with the record as it is; otherwise the embed is
      built, which sorts the lists. */
  function Memoised(d: GroupData, memo: Option<Card>): (GroupData, Option<Card>) {
    if memo.Some? then (d, memo) else TeamRender.CreateEmbed(d)
  }

  class GroupEmbedController {
    /** `self.data`. */
    var data: GroupData
    /** `self._embed`: `None` until the embed is built, reset by each change. */
    var embed: Option<Card>

    constructor (name: string, time: int, desc: Option<string>,
                 dpsLimit: Limit, healerLimit: Limit, tankLimit: Limit, owner: Owner)
      ensures data == NewGroup(name, time, desc, dpsLimit, healerLimit, tankLimit, owner)
      ensures embed == None
    {
      data := GroupData(name, time, desc, dpsLimit, healerLimit, tankLimit, NoMembers, owner);
      embed := None;
    }

    /** The search every member operation runs: the dps list, then the healer
        list, then the tank list, each from the front, stopping at the first
        entry with `id`. */
    method FindSlot(id: int) returns (r: Option<Slot>)
      ensures r == Locate(data.members, id)
    {
      var m := data.members;
      var cats := [Dps, Healer, Tank];
      assert forall c :: cats[Rank(c)] == c;
      var k := 0;
      while k < 3
        invariant 0 <= k <= 3
        invariant forall c: Category, j :: Rank(c) < k && 0 <= j < |m.Get(c)| ==> m.Get(c)[j].id != id
      {
        var list := m.Get(cats[k]);
        var j := 0;
        while j < |list|
          invariant 0 <= j <= |list|
          invariant forall i :: 0 <= i < j ==> list[i].id != id
        {
          if list[j].id == id {
            var found := Slot(cats[k], j);
            assert IsFirst(m, id, found);
            IsFirstUnique(m, id, found, Locate(m, id).value);
            return Some(found);
          }
          j := j + 1;
        }
        k := k + 1;
      }
      assert Absent(m, id);
      return None;
    }

    /** `find_member`. */
    method FindMember(id: int) returns (u: Option<GroupUser>)
      ensures u == TeamRoster.FindMember(data.members, id)
    {
      var sl := FindSlot(id);
      match sl
      case None => u := None;
      case Some(s) => u := Some(data.members.Get(s.cat)[s.index]);
    }

    /** `pop_member`: removes the entry and returns a copy of it; the embed is
        left as it is. */
    method PopMember(id: int) returns (u: Option<GroupUser>)
      modifies this
      ensures (data.members, u) == Pop(old(data.members), id)
      ensures data == old(data).(members := data.members)
      ensures embed == old(embed)
    {
      var sl := FindSlot(id);
      match sl
      case None => u := None;
      case Some(s) =>
        var list := data.members.Get(s.cat);
        u := Some(list[s.index]);
        data := data.(members := data.members.Set(s.cat, list[..s.index] + list[s.index + 1..]));
        assert list[..s.index] + list[s.index + 1..] == RemoveAt(list, s.index);
    }

    /** `add_member`: pops the member (or makes a fresh entry), stores the new
        role emoji and appends the entry to the list `role` names. */
    method AddMember(id: int, role: string, emoji: string)
      modifies this
      ensures data == old(data).(members := TeamRoster.AddMember(old(data.members), id, role, emoji))
      ensures embed == None
    {
      var prev := PopMember(id);
      var u := match prev
               case Some(p) => p
               case None => GroupUser(id, emoji, false, None, None);
      u := u.(role := emoji);
      if role == "dps" {
        data := data.(members := data.members.(dps := data.members.dps + [u]));
      } else if role == "healer" {
        data := data.(members := data.members.(healer := data.members.healer + [u]));
      } else if role == "tank" {
        data := data.(members := data.members.(tank := data.members.tank + [u]));
      }
      embed := None;
    }

    /** `remove_member`: the embed is reset only when the member was found. */
    method RemoveMember(id: int)
      modifies this
      ensures data == old(data).(members := Pop(old(data.members), id).0)
      ensures embed == if Absent(old(data.members), id) then old(embed) else None
    {
      var sl := FindSlot(id);
      match sl
      case None =>
      case Some(s) =>
        var list := data.members.Get(s.cat);
        data := data.(members := data.members.Set(s.cat, list[..s.index] + list[s.index + 1..]));
        assert list[..s.index] + list[s.index + 1..] == RemoveAt(list, s.index);
        embed := None;
    }

    /** `toggle_help`: returns the new flag, or `None` when absent. */
    method ToggleHelp(id: int) returns (b: Option<bool>)
      modifies this
      ensures (data.members, b) == TeamRoster.ToggleHelp(old(data.members), id)
      ensures data == old(data).(members := data.members)
      ensures embed == if b.None? then old(embed) else None
    {
      var sl := FindSlot(id);
      match sl
      case None => b := None;
      case Some(s) =>
        var list := data.members.Get(s.cat);
        var u := list[s.index];
        data := data.(members := data.members.Set(s.cat, list[s.index := u.(help := !u.help)]));
        embed := None;
        b := Some(!u.help);
    }

    /** `set_imagine`: overwrites both cosmetic fields; the embed is reset only
        when the member was found. */
    method SetImagine(id: int, airona: Option<int>, tina: Option<int>)
      modifies this
      ensures data == old(data).(members := TeamRoster.SetImagine(old(data.members), id, airona, tina))
      ensures embed == if Absent(old(data.members), id) then old(embed) else None
    {
      var sl := FindSlot(id);
      match sl
      case None =>
      case Some(s) =>
        var list := data.members.Get(s.cat);
        var u := list[s.index];
        data := data.(members := data.members.Set(s.cat, list[s.index := u.(airona := airona, tina := tina)]));
        embed := None;
    }

    /** `update_members`: sorts the list of `c` in place by the help flag and
        renders it; `None` when a line raises. */
    method UpdateMembers(c: Category, limit: Option<int>) returns (body: Option<string>)
      modifies this
      ensures data == old(data).(members := old(data.members).Set(c, SortByHelp(old(data.members).Get(c))))
      ensures body == RenderBody(SortByHelp(old(data.members).Get(c)), limit)
      ensures embed == old(embed)
    {
      var sorted := SortByHelp(data.members.Get(c));
      data := data.(members := data.members.Set(c, sorted));
      body := RenderBody(sorted, limit);
    }

    /** `_create_embed`: the three fields in order, each sorting its list;
        building stops at the first field that raises. */
    method CreateEmbed() returns (card: Option<Card>)
      modifies this
      ensures (data, card) == TeamRender.CreateEmbed(old(data))
      ensures embed == old(embed)
    {
      var f1 := UpdateField(Dps);
      if f1.None? { return None; }
      var f2 := UpdateField(Healer);
      if f2.None? { return None; }
      var f3 := UpdateField(Tank);
      if f3.None? { return None; }
      card := Some(Card(data.name, Description(data.time, data.desc), [f1.value, f2.value, f3.value],
                        data.owner.name, data.owner.iconUrl));
    }

    /** One field of `_create_embed`: the heading and the rendered list. */
    method UpdateField(c: Category) returns (f: Option<Field>)
      modifies this
      ensures data == old(data).(members := old(data.members).Set(c, SortByHelp(old(data.members).Get(c))))
      ensures f == CategoryField(c, SortByHelp(old(data.members).Get(c)), old(data).LimitOf(c))
      ensures embed == old(embed)
    {
      var limit := LimitValue(data.LimitOf(c));
      var body := UpdateMembers(c, limit);
      var count := |data.members.Get(c)|;
      match body
      case None => f := None;
      case Some(b) => f := Some(Field(Heading(EmojiOf(c), LabelOf(c), count, limit), b));
    }

    /** The `embed` property: builds the embed once and keeps it until a
        change resets it. */
    method Embed() returns (card: Option<Card>)
      modifies this
      ensures old(embed).Some? ==> card == old(embed) && data == old(data) && embed == old(embed)
      ensures old(embed).None? ==> (data, card) == TeamRender.CreateEmbed(old(data)) && embed == card
      ensures (data, embed) == Memoised(old(data), old(embed)) && card == embed
    {
      if embed.Some? {
        return embed;
      }
      card := CreateEmbed();
      embed := card;
    }
  }

  /** `_INTERNAL_CACHE`: controllers by message id, so that every interaction
      on one message sees the same controller. */
  class GroupCache {
    var entries: map<int, GroupEmbedController>

    constructor ()
      ensures entries == map[]
    {
      entries := map[];
    }

    /** `from_message`: a cached controller is returned as it is; otherwise
        the message must have an author (else ValueError, `None` here) whose
        link decodes to a record (`decoded`, `None` when it does not), and a
        new controller holding that record is cached and returned. */
    method FromMessage(messageId: int, hasAuthor: bool, decoded: Option<GroupData>)
      returns (r: Option<GroupEmbedController>)
      modifies this
      ensures messageId in old(entries) ==> r == Some(old(entries)[messageId]) && entries == old(entries)
      ensures messageId !in old(entries) && (!hasAuthor || decoded.None?) ==>
                r.None? && entries == old(entries)
      ensures messageId !in old(entries) && hasAuthor && decoded.Some? ==>
                r.Some? && fresh(r.value) && r.value.data == decoded.value && r.value.embed == None
                && entries == old(entries)[messageId := r.value]
    {
      if messageId in entries {
        return Some(entries[messageId]);
      }
      if !hasAuthor || decoded.None? {
        return None;
      }
      var d := decoded.value;
      var controller := new GroupEmbedController(d.name, d.time, d.desc, d.dpsLimit, d.healerLimit,
                                                 d.tankLimit, d.owner);
      controller.data := d;
      entries := entries[messageId := controller];
      r := Some(controller);
    }
  }
}
