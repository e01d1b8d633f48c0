# Luk-chan group finder, modelled in Dafny

Luk-chan is a Discord bot. Its group finder lets a leader post a group card,
and members join the card's role lists with buttons and selects. This project
models that core and proves what it keeps true. There are three flavours of
card:

- **Team groups** (`src/embeds/team/group_controller.py`,
  `src/components/team/create_group.py`, `src/components/team/edit_group.py`).
  A `GroupEmbedController` holds the group record: name, time, description,
  one limit per role and three member lists (DPS, support, tank). It also holds
  the memoised embed and is cached by message id. The create modal turns
  "Fields and Limits" text such as `DPS:3 Sup:1 Tank:1` into limits. The role
  select adds a member under a class emoji, the imagine select sets two
  cosmetic indices, the help button toggles a flag, and the edit modal
  overwrites the record.
- **Legacy BPSR cards** (`src/embeds/bpsr/group_controller.py`). A controller
  holds four lists of mentions: DPS, Healer, Tank and Waiting. Each button
  leaves or joins a list. `from_message` rebuilds a controller from a posted
  embed, reading the time from `<t:N:R>`, the limits from the headings and the
  members from the field bodies.
- **BPSR layout groups** (`src/components/bpsr/create_group.py`). A layout view
  keeps each role section as text: a count line, then one mention per line.
  Each click re-reads the clicked section, toggles the user and writes the
  section back. On a full section the click is refused.

`src/_channels.py` renders a channel id as a Discord URL and reads it back.

Modules:

| module | file | what it holds |
|---|---|---|
| `Wrappers` | `wrappers.dfy` | `Option` |
| `Text` | `text.dfy` | the Python string operations the core uses: `split`, `split()`, `rsplit`, `rstrip`, `strip`, `splitlines`, `lower`, `int()`, `str(int)`, `"\n".join`, `format_dt` markup |
| `Channels` | `channels.dfy` | `_LukChannel` |
| `TeamRoster` | `team_roster.dfy` | the team record and its member operations, as functions on values |
| `TeamRender` | `team_render.dfy` | `update_members` and `_create_embed` |
| `TeamController` | `team_controller.dfy` | the classes `GroupEmbedController` and `GroupCache`, whose methods update fields in place and are proved against the two modules above |
| `LimitText` | `limit_text.dfy` | the `parse_limit` loop shared by the create and edit modals; the word naming the healer list is a parameter |
| `TeamCreate` | `team_create.dfy` | presets, `on_submit`, the role and imagine selects and the help button of `JoinGroupView` |
| `TeamEdit` | `team_edit.dfy` | `_limits_to_text_input` and the edit `on_submit` |
| `BpsrController` | `bpsr_controller.dfy` | the legacy controller class, the spec function `Click` of `button_clicked`, `update_embed`, and `from_message` with its round trips |
| `BpsrLayout` | `bpsr_layout.dfy` | `parse_limit`, `get_section`, `button_callback` (class `GroupLayoutView`) and the create `on_submit` |

Python's `float` limits are `Limit = Unlimited | Finite(n)`. A `datetime` is
its POSIX timestamp. Emojis are opaque strings. Where Python raises (a bad
index, a failed `int()`), the model returns `None`.

The team controller's `add_member`, `remove_member`, `toggle_help` and
`set_imagine` reset the memoised embed when they change the roster.
`pop_member` changes the roster and keeps the embed; its one caller,
`add_member`, resets the embed afterwards. The team edit modal does not reset
it either (see Findings). The code has no
locking, and the model is sequential.

## Model

| member | source | states |
|---|---|---|
| Channels.NewChannel | src/_channels.py:5-7 | the URL is the Discord channels prefix, and its last '/'-segment is the id |
| Channels.FromUrl | src/_channels.py:9-12 | succeeds exactly when the last '/'-segment parses as an integer, and gives the channel of that id |
| Channels.FromUrlRoundTrip | src/_channels.py:5-12 | reading back a channel's URL gives the same channel |
| Channels.FromUrlTrailingSlash | src/_channels.py:10-12 | a URL ending in '/' is rejected (`int("")` raises) |
| TeamRoster.Locate | src/embeds/team/group_controller.py:234-244 | the search stops at the first entry with the id, visiting DPS, then support, then tank, each from the front; `None` exactly when the id is absent |
| TeamRoster.IsFirstUnique | src/embeds/team/group_controller.py:234-244 | the stopping position of the search is unique |
| TeamRoster.FindMember | src/embeds/team/group_controller.py:246-255 | `None` exactly when the id is absent; otherwise the entry at the first position holding the id |
| TeamRoster.Pop | src/embeds/team/group_controller.py:234-244 | returns what `find_member` finds; removes exactly that entry from its list and leaves everything else in place |
| TeamRoster.PopCount | src/embeds/team/group_controller.py:234-244 | popping removes one entry with the id when there is one, and no entry of any other id |
| TeamRoster.AddMember | src/embeds/team/group_controller.py:217-232 | defined by its body; its properties are stated by `AddMemberJoins`, `AddMemberUnknownRole`, `AddMemberSwitchKeepsFlags` and `UniqueIdsPreserved` |
| TeamRoster.AddMemberJoins | src/embeds/team/group_controller.py:217-232 | after a join with dps/healer/tank, the member is the last entry of that list with the new emoji; the id count grows only if the member was absent, and it is exactly 1 when ids were unique |
| TeamRoster.AddMemberUnknownRole | src/embeds/team/group_controller.py:217-231 | a role outside the three lists only pops the member, so the member ends up in no list |
| TeamRoster.AddMemberSwitchKeepsFlags | src/embeds/team/group_controller.py:217-223 | switching role keeps the help flag and both imagine indices; only the role emoji changes |
| TeamRoster.ToggleHelp | src/embeds/team/group_controller.py:269-277 | `None` and no change exactly when absent; otherwise only the found entry's flag is flipped, and the result is the new flag |
| TeamRoster.ToggleHelpResult | src/embeds/team/group_controller.py:269-277 | the returned flag is the member's flag afterwards and the negation of the old one |
| TeamRoster.ToggleHelpTwice | src/embeds/team/group_controller.py:269-277 | toggling twice restores the roster |
| TeamRoster.SetImagine | src/embeds/team/group_controller.py:279-295 | an absent member changes nothing; otherwise only the found entry's two indices are overwritten |
| TeamRoster.SetImagineResult | src/embeds/team/group_controller.py:279-295 | afterwards the member carries exactly the new indices, and a repeated call changes nothing |
| TeamRoster.UniqueIdsPreserved | src/embeds/team/group_controller.py:217-295 | pop, add, toggle and set-imagine keep every id in at most one entry |
| TeamRoster.NewGroup | src/embeds/team/group_controller.py:69-93 | a new record has the given fields and limits and empty lists |
| TeamRender.SortByHelp | src/embeds/team/group_controller.py:166 | the stable sort on `help`; its properties are stated by `SortByHelpPermutation`, `SortByHelpOrder`, `SortByHelpStable` and `SortByHelpIdempotent` |
| TeamRender.SortByHelpPermutation | src/embeds/team/group_controller.py:166 | the sort on `help` is a permutation |
| TeamRender.SortByHelpOrder | src/embeds/team/group_controller.py:166 | non-helpers come first: a position holds a helper exactly when it is past the non-helpers |
| TeamRender.SortByHelpStable | src/embeds/team/group_controller.py:166 | the sort is stable within helpers and within non-helpers |
| TeamRender.SortByHelpIdempotent | src/embeds/team/group_controller.py:166 | sorting a sorted list changes nothing |
| TeamRender.LimitValue | src/embeds/team/group_controller.py:116-118 | infinity becomes no limit; a finite limit is kept |
| TeamRender.AlertThreshold | src/embeds/team/group_controller.py:177 | `limit or inf`: no limit and limit 0 never alert; any other limit is the threshold |
| TeamRender.PyIndex | src/embeds/team/group_controller.py:171-172 | Python indexing: defined exactly on `-len <= i < len`, with negative indices counting from the end |
| TeamRender.ImagineText | src/embeds/team/group_controller.py:171-172 | an unset index gives ""; a set one indexes the table as Python does |
| TeamRender.RenderLine | src/embeds/team/group_controller.py:170-180 | renders exactly when both imagine indices are valid; the line starts with role emoji and mention and ends in the alert emoji exactly when alerted |
| TeamRender.RenderLineParts | src/embeds/team/group_controller.py:170-180 | split at its spaces, a line gives back the role emoji, the mention, the airona and tina emojis, the help emoji and the alert emoji, in that order, each empty when unset |
| TeamRender.RenderLineNoBreak | src/embeds/team/group_controller.py:170-180 | a line has no line boundary when its role emoji has none |
| TeamRender.RenderLines | src/embeds/team/group_controller.py:168-183 | one line per entry, each alerted by its own position; `None` exactly when some entry raises |
| TeamRender.RenderBody | src/embeds/team/group_controller.py:162-183 | an empty list gives U+200B; otherwise renders exactly when every entry renders |
| TeamRender.RenderBodyLines | src/embeds/team/group_controller.py:162-183 | split at line boundaries, the body holds exactly one line per member, in order |
| TeamRender.SortedAlerts | src/embeds/team/group_controller.py:166-182 | after sorting, helpers never alert, and a non-helper at position i alerts exactly when the threshold is at most i |
| TeamRender.HeadingLimit | src/embeds/team/group_controller.py:119-123 | a heading with a limit rsplits at '/' into the count part and `limit)`, and that limit reads back; a heading without a limit has no '/' |
| TeamRender.Description | src/embeds/team/group_controller.py:104-114 | the time line, a blank line, then the description when it is non-empty |
| TeamRender.CategoryField | src/embeds/team/group_controller.py:116-152 | a field exists exactly when its body renders; its name holds the emoji, caption, count and limit, and its value is the rendered body |
| TeamRender.SortKeepsRenders | src/embeds/team/group_controller.py:166 | sorting keeps whether every line renders |
| TeamRender.CreateEmbed | src/embeds/team/group_controller.py:103-160 | defined by its body; its properties are stated by `CreateEmbedKeepsRecord`, `CreateEmbedCard` and `CreateEmbedStable` |
| TeamRender.CreateEmbedKeepsRecord | src/embeds/team/group_controller.py:103-160 | building the card changes only the member lists, each by a permutation |
| TeamRender.CreateEmbedCard | src/embeds/team/group_controller.py:103-160 | there is a card exactly when all three lists render; it then has the name, the description, three headings with counts and limits, and as values the rendered bodies of the sorted lists, and all lists are sorted |
| TeamRender.CreateEmbedFields | src/embeds/team/group_controller.py:103-160 | the fields of a built card are the DPS, healer and tank fields of the sorted lists, in that order |
| TeamRender.CreateEmbedStable | src/embeds/team/group_controller.py:103-160 | rebuilding from the record the first build left gives the same record and card |
| TeamController.GroupEmbedController.constructor | src/embeds/team/group_controller.py:69-94 | the record is `NewGroup` of the arguments, and no embed is built |
| TeamController.GroupEmbedController.FindSlot | src/embeds/team/group_controller.py:246-255 | the nested loops stop where `Locate` says |
| TeamController.GroupEmbedController.FindMember | src/embeds/team/group_controller.py:246-255 | returns `TeamRoster.FindMember` of the lists |
| TeamController.GroupEmbedController.PopMember | src/embeds/team/group_controller.py:234-244 | the lists and the result are `Pop`; nothing else changes, and the embed is kept |
| TeamController.GroupEmbedController.AddMember | src/embeds/team/group_controller.py:217-232 | the lists become `TeamRoster.AddMember`, and the embed is reset |
| TeamController.GroupEmbedController.RemoveMember | src/embeds/team/group_controller.py:257-267 | the lists become `Pop(...).0`; the embed is reset only if the member was present |
| TeamController.GroupEmbedController.ToggleHelp | src/embeds/team/group_controller.py:269-277 | the lists and the result are `TeamRoster.ToggleHelp`; the embed is reset only when found |
| TeamController.GroupEmbedController.SetImagine | src/embeds/team/group_controller.py:279-295 | the lists become `TeamRoster.SetImagine`; the embed is reset only when found |
| TeamController.GroupEmbedController.UpdateMembers | src/embeds/team/group_controller.py:162-183 | sorts that one list in place, and the result is the rendered sorted list |
| TeamController.GroupEmbedController.UpdateField | src/embeds/team/group_controller.py:116-126 | one field: the list is sorted in place, and the field is `CategoryField` of it |
| TeamController.GroupEmbedController.CreateEmbed | src/embeds/team/group_controller.py:103-160 | the record and the card are those of `TeamRender.CreateEmbed` |
| TeamController.GroupEmbedController.Embed | src/embeds/team/group_controller.py:96-101 | a built embed is returned unchanged; otherwise it is built, stored and returned |
| TeamController.GroupCache.constructor | src/embeds/team/group_controller.py:12-15 | the cache starts empty |
| TeamController.GroupCache.FromMessage | src/embeds/team/group_controller.py:185-215 | a cached controller is returned as is; no author or an undecodable link fails; otherwise a fresh controller holding the decoded record is cached under the message id |
| LimitText.ParseCount | src/components/team/create_group.py:94 | `float(count)`: an integer literal gives that number, and any spelling of positive infinity gives `Unlimited` |
| LimitText.NotInfinity | src/components/team/create_group.py:94 | an integer literal is never read as infinity |
| LimitText.CountOf | src/components/team/create_group.py:87-94 | a token that is not exactly `role:count` counts as infinity; otherwise its count is parsed |
| LimitText.CategoryFor | src/components/team/create_group.py:95-100 | the if/elif chain: "dps", then a healer word, then "tank" |
| LimitText.ApplyPart | src/components/team/create_group.py:86-100 | one pass: fails exactly when `float` raises; otherwise only the named list's limit is replaced |
| LimitText.ParseLimits | src/components/team/create_group.py:77-104 | defined by its body; its properties are stated by `ApplyPartsStops`, `ApplyPartsLastWins`, `ParseLimitsUnnamed`, `ParseLimitsBlank` and `ParseWrittenLimits` |
| LimitText.ParseLimitsLoop | src/components/team/create_group.py:77-104 | the loop returns `ParseLimits` of the text |
| LimitText.ApplyPartsStops | src/components/team/create_group.py:84-102 | a token whose count raises ends the loop with the limits gathered so far; later tokens are ignored |
| LimitText.ApplyPartsLastWins | src/components/team/create_group.py:85-100 | when every count parses, each list gets the count of the last token naming it, or keeps its start value |
| LimitText.ParseLimitsUnnamed | src/components/team/create_group.py:80-100 | a list no token names keeps its default |
| LimitText.ParseLimitsBlank | src/components/team/create_group.py:80-85 | an empty or all-whitespace text gives the defaults |
| LimitText.FormatLimitToken | src/components/team/edit_group.py:61-66 | a written token has no whitespace, and reads back as its role word and limit |
| LimitText.ParseWrittenTokens | src/components/team/edit_group.py:68-72 | three written tokens, joined by spaces, apply their limits in order |
| LimitText.ParseUnknownToken | src/components/team/create_group.py:95-100 | a lone token whose role names no list leaves the defaults |
| LimitText.ParseWrittenLimits | src/components/team/edit_group.py:68-101 | the `DPS… Sup… Tank…` text parses back to its limits, except that `Sup` counts only when "sup" names the healer list |
| TeamCreate.PresetFields | src/components/team/create_group.py:71-75 | every preset lists DPS, Sup and Tank; an unknown preset falls back to bpsr-5 |
| TeamCreate.FieldTokens | src/components/team/create_group.py:72-75 | one `name:limit` token per preset field, in order |
| TeamCreate.PresetTextWritten | src/components/team/create_group.py:71-75 | the preset text is the text the edit modal writes for the preset's limits |
| TeamCreate.ParseCreateLimits | src/components/team/create_group.py:77-104 | defined by its body (healer word `healer`); its properties are stated by `CreateParseEmpty`, `PresetHealerIgnored` and `CreateParserOnEditText` |
| TeamCreate.ParseCreateLimitsLoop | src/components/team/create_group.py:77-104 | the create loop, as written, returns `ParseCreateLimits` |
| TeamCreate.CreateParseEmpty | src/components/team/create_group.py:80-82 | an empty or blank field gives 3, 1, 1 |
| TeamCreate.PresetHealerIgnored | src/components/team/create_group.py:71-104 | as written, every preset's own text gets healer limit 1 and its other limits |
| TeamCreate.PresetHealerMismatch | src/components/team/create_group.py:97 | bpsr-10 lists 2 healers, but its own text parses to 1 |
| TeamCreate.PresetRoundTripFixed | src/components/team/create_group.py:71-104 | with "sup" accepted, every preset's text parses to exactly its limits |
| TeamCreate.SubmitGroup | src/components/team/create_group.py:111-136 | succeeds exactly when the time parsed and is not before now; the new controller holds `NewGroup` of the given limits, and its embed is the one `CreateEmbed` builds from that record |
| TeamCreate.NewGroupCard | src/components/team/create_group.py:124-136 | a new group's embed always builds and keeps the record; the card has the name, the time line and description, and three headings with count 0 and the limits over U+200B bodies |
| TeamCreate.CreateGroupSubmit | src/components/team/create_group.py:106-136 | as written: the limits are the create parser's (only `healer` names the healer list); fails exactly on a missing or past time; the new controller holds `NewGroup` with those limits and its built embed |
| TeamCreate.CreateGroupSubmitFixed | src/components/team/create_group.py:97-136 | the same handler with `sup` accepted for the healer list, so a preset's own text gives its limits |
| TeamCreate.LookupClass | src/components/team/create_group.py:259-312 | `_role_mapping[id]`: an entry with that id, or `None` when no entry has it |
| TeamCreate.LookupIn | src/components/team/create_group.py:259-312 | search of the class table by id: an entry with that id, or `None` when none has it |
| TeamCreate.LookupInAt | src/components/team/create_group.py:259-312 | the first entry with an id is the one found |
| TeamCreate.RoleMappingLookup | src/components/team/create_group.py:364-385 | every option value of the role select finds its own class |
| TeamCreate.RoleMappingCategories | src/components/team/create_group.py:259-312 | four DPS, two healer and two tank classes, each naming a list |
| TeamCreate.SelectRole | src/components/team/create_group.py:378-397 | a known class adds the member with its role and emoji, and `controller.embed` rebuilds the card, sorting every list by help; an unknown value raises before anything changes |
| TeamCreate.SelectRoleJoins | src/components/team/create_group.py:385-394 | choosing a class puts the member last in that class's list with its emoji |
| TeamCreate.ImagineChoice | src/components/team/create_group.py:429-430 | `rsplit("_", 1)` gives two parts, and the second parses as the index |
| TeamCreate.SelectImagine | src/components/team/create_group.py:425-434 | defined by its body; its properties are stated by `SelectImagineLastWins` and `SelectedImaginesRender` |
| TeamCreate.SelectImagineLoop | src/components/team/create_group.py:425-434 | the loop returns `SelectImagine` of the values |
| TeamCreate.ImagineValueRoundTrip | src/components/team/create_group.py:407-430 | an option's value splits back into its name and index |
| TeamCreate.SelectImagineLastWins | src/components/team/create_group.py:428-434 | for offered values, each table gets the index of the last value naming it (unset if none), within 0..5 |
| TeamCreate.SelectImagineHandler | src/components/team/create_group.py:418-443 | the member's two indices are overwritten with the selection, then `controller.embed` is read: rebuilt (lists sorted) when the member was found, the memoised one otherwise; a value that raises changes nothing |
| TeamCreate.HelpButton | src/components/team/create_group.py:455-469 | the result and roster are `ToggleHelp`'s, then `controller.embed` is read: rebuilt (lists sorted) when the member was found, the memoised one otherwise |
| TeamCreate.SelectedImaginesRender | src/components/team/create_group.py:403-440 | a member whose imagines came from the select always renders |
| TeamEdit.LimitsToText | src/components/team/edit_group.py:60-72 | defined by its body; its properties are stated by `EditRoundTrip` and `CreateParserOnEditText` |
| TeamEdit.ParseEditLimits | src/components/team/edit_group.py:74-101 | defined by its body (healer word `sup`); its properties are stated by `EditRoundTrip` and `EditIgnoresHealer` |
| TeamEdit.ParseEditLimitsLoop | src/components/team/edit_group.py:74-101 | the edit loop returns `ParseEditLimits` |
| TeamEdit.EditRoundTrip | src/components/team/edit_group.py:60-101 | the pre-filled limits text parses back to the group's limits |
| TeamEdit.CreateParserOnEditText | src/components/team/edit_group.py:60-72 | the as-written create parser reads the same text with the healer limit reset to 1 |
| TeamEdit.EditIgnoresHealer | src/components/team/edit_group.py:92-97 | the edit parser ignores a `Healer` token |
| TeamEdit.Edited | src/components/team/edit_group.py:122-127 | overwrites name, description, the three limits and time, and keeps members and owner |
| TeamEdit.ApplyEdit | src/components/team/edit_group.py:103-127 | the writes: a failed or past time is rejected with no change; otherwise the record is `Edited`, and the memoised embed is kept |
| TeamEdit.EditSubmit | src/components/team/edit_group.py:103-129 | the whole handler as written: a rejected edit changes and posts nothing; otherwise the record and embed are those the `embed` read gives for the edited record and the kept memo, and that embed is posted |
| TeamEdit.EditShowsStaleEmbed | src/components/team/edit_group.py:122-129 | as written, with an embed already built, the embed shown after renaming still carries the old title |
| TeamEdit.EditSubmitFixed | src/components/team/edit_group.py:103-129 | the handler with the embed reset on success: the posted embed and the record are `CreateEmbed` of the edited record |
| TeamEdit.EditShowsNewEmbed | src/components/team/edit_group.py:122-129 | with the reset, the shown embed carries the new name and description |
| BpsrController.Holder | src/embeds/bpsr/group_controller.py:142-149 | the first of the four lists holding the mention; `None` exactly when it occurs nowhere |
| BpsrController.ButtonIndex | src/embeds/bpsr/group_controller.py:135-140 | the list a button id names, defined exactly for the four ids |
| BpsrController.RemoveFirst | src/embeds/bpsr/group_controller.py:144 | `list.remove`: one occurrence fewer, as a multiset |
| BpsrController.RemoveFirstAt | src/embeds/bpsr/group_controller.py:144 | the occurrence removed is the first one, and the other entries keep their order |
| BpsrController.Click | src/embeds/bpsr/group_controller.py:132-156 | defined by its body; its properties are stated by `ClickLeaves`, `ClickOtherButton`, `ClickJoins`, `ClickUnknownButton`, `ClickKeepsAtMostOnce`, `ClickKeepsWithinLimits` and `ClickTwice` |
| BpsrController.ClickLeaves | src/embeds/bpsr/group_controller.py:142-145 | the own button of the holding list removes one occurrence there, leaves the other lists alone, and updates the embed |
| BpsrController.ClickOtherButton | src/embeds/bpsr/group_controller.py:147-149 | any other button, while the member is listed, changes nothing but updates the embed |
| BpsrController.ClickJoins | src/embeds/bpsr/group_controller.py:151-155 | a member in no list is appended exactly when the list has room; the waiting list always has room |
| BpsrController.ClickUnknownButton | src/embeds/bpsr/group_controller.py:132-156 | an unknown button id changes no list |
| BpsrController.ClickKeepsAtMostOnce | src/embeds/bpsr/group_controller.py:132-156 | a click keeps each mention in at most one list, at most once |
| BpsrController.ClickKeepsWithinLimits | src/embeds/bpsr/group_controller.py:151-155 | no capped list grows past its limit |
| BpsrController.ClickTwice | src/embeds/bpsr/group_controller.py:132-156 | from outside every list, clicking the same button twice restores the lists |
| BpsrController.LegacyDescription | src/embeds/bpsr/group_controller.py:34-43 | the time line, one line break, then the description when it is non-empty |
| BpsrController.Fields | src/embeds/bpsr/group_controller.py:158-178 | `update_embed` writes four fields |
| BpsrController.NewCard | src/embeds/bpsr/group_controller.py:33-66 | `_create_embed` makes four fields; their contents are stated by `NewCardReads` |
| BpsrController.NewCardReads | src/embeds/bpsr/group_controller.py:33-66 | the card has the name, description and author; its three headings read back (as `from_message` reads them) as the limits, and its four values as no members |
| BpsrController.NewCardReloads | src/embeds/bpsr/group_controller.py:33-130 | a new card with empty lists is what `update_embed` shows for them, and `from_message` reads it back with its name, time and limits and no members |
| BpsrController.Shown | src/embeds/bpsr/group_controller.py:158-178 | after `update_embed` the fields are rewritten from the lists and the rest of the (memoised or new) embed is kept |
| BpsrController.MatchTimestampAt | src/embeds/bpsr/group_controller.py:82 | a match is `<t:`, a digit run, `:R>`, and its number is the value of the digits |
| BpsrController.MatchTimestampOf | src/embeds/bpsr/group_controller.py:82 | every `<t:digits:R>` prefix matches with its number |
| BpsrController.SearchTimestamp | src/embeds/bpsr/group_controller.py:82 | `re.search` for `<t:(\d+):R>`, defined by its body; its properties are stated by `SearchSkips`, `SkipFullDate` and `SearchTimeLine` |
| BpsrController.SearchSkips | src/embeds/bpsr/group_controller.py:82 | the search skips text without '<' |
| BpsrController.SkipFullDate | src/embeds/bpsr/group_controller.py:82 | `<t:digits:f>` is no match |
| BpsrController.SearchTimeLine | src/embeds/bpsr/group_controller.py:82-86 | the search finds the timestamp of the card's own time line when it is non-negative |
| BpsrController.HeadingLimit | src/embeds/bpsr/group_controller.py:93-95 | defined by its body; its properties are stated by `HeadingLimitRoundTrip` and `LoadLimitsRoundTrip` |
| BpsrController.HeadingLimitRoundTrip | src/embeds/bpsr/group_controller.py:93-95 | the limit written into a heading is the one read back |
| BpsrController.MentionLines | src/embeds/bpsr/group_controller.py:106-128 | keeps only non-blank lines other than U+200B, each taken from the input |
| BpsrController.MentionLinesKeep | src/embeds/bpsr/group_controller.py:106-128 | well-formed lines are all kept |
| BpsrController.ParseBodyRoundTrip | src/embeds/bpsr/group_controller.py:106-128 | a field body written from a list of well-formed mentions reads back as that list |
| BpsrController.FromMessage | src/embeds/bpsr/group_controller.py:76-130 | fails exactly when the first description line has no `<t:N:R>`, its timestamp is past 9999-12-31 23:59:59 UTC (`MaxTimestamp`, where `datetime.fromtimestamp` raises), there are fewer than four fields, or a limit is not an integer; the name is never empty (Unnamed Group), and the description is the remaining lines |
| BpsrController.SplitDescriptionRoundTrip | src/embeds/bpsr/group_controller.py:77-80 | the shown description splits back into the time line and the description, with a missing one coming back as "" |
| BpsrController.LoadLimitsRoundTrip | src/embeds/bpsr/group_controller.py:93-95 | the written headings give back the limits |
| BpsrController.LoadListsRoundTrip | src/embeds/bpsr/group_controller.py:106-128 | the written bodies give back the four lists |
| BpsrController.FromMessageRoundTrip | src/embeds/bpsr/group_controller.py:76-130 | a shown card with a timestamp up to `MaxTimestamp` reads back with its name, time, limits and lists |
| BpsrController.FromMessageTimeRange | src/embeds/bpsr/group_controller.py:84-86 | a shown card whose timestamp is past `MaxTimestamp` does not load |
| BpsrController.ReloadedCard | src/embeds/bpsr/group_controller.py:76-130 | the reloaded controller shows the same card, only without the author line |
| BpsrController.LegacyGroupController.constructor | src/embeds/bpsr/group_controller.py:12-31 | the fields are the arguments; the lists are empty and no embed is built |
| BpsrController.LegacyGroupController.Embed | src/embeds/bpsr/group_controller.py:68-73 | a built embed is returned; otherwise `NewCard` is stored and returned |
| BpsrController.LegacyGroupController.UpdateEmbed | src/embeds/bpsr/group_controller.py:158-178 | the embed becomes `Shown` of the lists; nothing else changes |
| BpsrController.LegacyGroupController.SetLists | src/embeds/bpsr/group_controller.py:142-155 | the four lists are replaced, and nothing else changes |
| BpsrController.LegacyGroupController.ClickOutcome | src/embeds/bpsr/group_controller.py:134-156 | the two loops compute `Click` of the lists |
| BpsrController.LegacyGroupController.ButtonClicked | src/embeds/bpsr/group_controller.py:132-156 | the lists become `Click`'s, and the embed is rewritten exactly when `Click` reports an update |
| BpsrController.Load | src/embeds/bpsr/group_controller.py:97-128 | a fresh controller holding the loaded record, with no author and no embed |
| BpsrController.LoadFromMessage | src/embeds/bpsr/group_controller.py:76-130 | succeeds exactly when `FromMessage` does, with a fresh controller holding its record |
| BpsrLayout.ParseLimit | src/components/bpsr/create_group.py:58-67 | anything other than the defaults is three tokens parsing to the limits, and three integer tokens give exactly those limits |
| BpsrLayout.ParseLimitRoundTrip | src/components/bpsr/create_group.py:58-67 | three integers written with spaces parse back |
| BpsrLayout.ParseLimitCount | src/components/bpsr/create_group.py:62-65 | more or fewer than three tokens give 3, 1, 1 |
| BpsrLayout.ParseLimitBadToken | src/components/bpsr/create_group.py:62-65 | three tokens of which one is not an integer give 3, 1, 1 |
| BpsrLayout.SectionLimit | src/components/bpsr/create_group.py:164-169 | only the waiting list has no limit |
| BpsrLayout.StrippedUsers | src/components/bpsr/create_group.py:222-224 | only non-empty stripped lines are kept |
| BpsrLayout.ReadSection | src/components/bpsr/create_group.py:215-224 | defined by its body; its properties are stated by `CountLineHeader`, `StrippedUsersKeep`, `ReadSectionRoundTrip` and `ReadInitialSection` |
| BpsrLayout.GetSection | src/components/bpsr/create_group.py:215-224 | defined by its body; its properties are stated by `GetSectionUnknown` and `ReadSectionRoundTrip` |
| BpsrLayout.GetSectionUnknown | src/components/bpsr/create_group.py:215-217 | an unknown section id gives ("", []) |
| BpsrLayout.StrippedUsersKeep | src/components/bpsr/create_group.py:222-224 | well-formed users are kept as they are |
| BpsrLayout.CountLineHeader | src/components/bpsr/create_group.py:206-208 | rsplitting a count line at its last space gives back the header |
| BpsrLayout.ReadSectionRoundTrip | src/components/bpsr/create_group.py:206-224 | a section written by `button_callback` reads back as its header and users |
| BpsrLayout.ReadInitialSection | src/components/bpsr/create_group.py:133-142 | a starting section reads back as its header with no users |
| BpsrLayout.ReadInitialDps | src/components/bpsr/create_group.py:133-135 | the starting DPS section reads back as `**DPS**` with no users |
| BpsrLayout.ReadInitialHealers | src/components/bpsr/create_group.py:136-138 | the starting healer section reads back as `**Healers**` with no users |
| BpsrLayout.Toggle | src/components/bpsr/create_group.py:200-204 | appends an absent user; removes one occurrence of a present one |
| BpsrLayout.ToggleTwice | src/components/bpsr/create_group.py:200-204 | toggling an absent user twice gives the users back |
| BpsrLayout.Callback | src/components/bpsr/create_group.py:171-213 | defined by its body; its properties are stated by `CallbackUnknown`, `CallbackFull`, `WaitingNeverFull`, `CallbackToggles` and `SeveralSections` |
| BpsrLayout.CallbackUnknown | src/components/bpsr/create_group.py:176-177 | an unknown id changes nothing and replies nothing |
| BpsrLayout.CallbackFull | src/components/bpsr/create_group.py:186-198 | refused exactly when the section has a limit, is at it and lacks the user; nothing changes then |
| BpsrLayout.WaitingNeverFull | src/components/bpsr/create_group.py:168-198 | the waiting list never refuses |
| BpsrLayout.CallbackToggles | src/components/bpsr/create_group.py:200-211 | otherwise only the clicked section changes, and it reads back as the toggled users |
| BpsrLayout.SeveralSections | src/components/bpsr/create_group.py:171-213 | a click touches only its own section, so one user can sit in two sections |
| BpsrLayout.HeaderTexts | src/components/bpsr/create_group.py:114-131 | three header texts, and a fourth for a non-empty description; their contents are stated by `HeaderTextsShow` |
| BpsrLayout.HeaderTextsShow | src/components/bpsr/create_group.py:114-131 | the name as a `##` heading, the leader, the description when present, and a time line from which the `<t:N:R>` search reads back the timestamp |
| BpsrLayout.GroupLayoutView.constructor | src/components/bpsr/create_group.py:99-169 | the fields are the arguments; the header and the four starting sections |
| BpsrLayout.GroupLayoutView.SetText | src/components/bpsr/create_group.py:206-211 | only the one section's text is replaced |
| BpsrLayout.GroupLayoutView.ButtonCallback | src/components/bpsr/create_group.py:171-213 | the texts and the reply are `Callback` of the old texts; limits and header are kept |
| BpsrLayout.SubmitCreate | src/components/bpsr/create_group.py:69-95 | succeeds exactly when the time parsed and is not before now; the view holds the name, time, description and leader, the header texts for them, the parsed limits and the starting sections |

## Left out

- Discord I/O is not modelled. Sending, deferring and editing messages, follow-ups and ephemeral replies are host calls; the model stops at the state they would show.
- The JSON + URL codec of the team author link (`model_dump_json`, `quote`, `unquote`, `model_validate_json`) is not modelled. `GroupCache.FromMessage` takes the decoded record, or `None`, as a parameter.
- The cache's TTL and size bound are not modelled. Eviction depends on a clock, and the model's `GroupCache` never evicts.
- The date parser is not modelled. `dateutil.parse` with time zones and `datetime_now` are inputs: `time: Option<int>` and `now`. Times are POSIX seconds.
- `format_dt` is modelled as its `<t:N:style>` markup only.
- `float()` is modelled only for integer literals and positive infinity. Fractional counts, exponents, `nan`, negative infinity and underscores in numbers are not. `_format_limit`'s fractional branch (edit_group.py:66) is therefore not modelled.
- `LimitText.ParseCount`: integer literals are kept exact. Python's `float()` rounds a literal above 2^53 to the nearest double (`DPS:9007199254740993` gives 9007199254740992, and the heading then shows that), and makes one past about 1.8e308 infinity, which is shown with no limit. The model does not round, and reads such a literal as that finite number.
- `Text.ParseInt`: `int()` is modelled for ASCII decimal literals only. Python also accepts underscores between digits (`int("1_0") == 10`) and non-ASCII decimal digits, and the model returns `None` for both. This reaches `Channels.FromUrl`, `BpsrController.HeadingLimit`, `BpsrLayout.ParseLimit`, `TeamCreate.ImagineChoice` and `LimitText.ParseCount`.
- `lower()`, `strip()`, `split()` and `\d` are modelled for ASCII, plus the whitespace and line boundaries Python's ASCII-range tables list. Other Unicode cases are not.
- `get_response_message` (create_group.py:326-362) is not modelled. It only formats a reply text.
- The owner/admin checks and the commands that open the modals are not modelled. They live outside the core.
- `config.GUILD_ID` is not part of this model. It is a parameter of `Channels.NewChannel`.
- Emojis are opaque strings, not Discord emoji objects.
- The view glue is not modelled: `GroupView` (its join/leave buttons just call the controller), `_ConfirmGroupCreateView`, the button classes and the code after the early `return` in `confirm_button`.
- `_role_map` is not modelled; the code never uses it.
- Embed colour, the `inline` flags and the author icon/URL are not modelled. They are not read back.
- `BpsrController.SearchTimeLine`: only non-negative timestamps, because the regex `\d+` has no sign. A card with a negative time is not reloaded.
- `BpsrController.ReloadedCard`: the reloaded controller has no author, as `from_message` passes none.
- `BpsrLayout.Capitalized`: `str.title()` is modelled for the one-word button ids only.
- Concurrency is not modelled. Python runs each interaction as its own task, with no locking, and the model is sequential.

## Findings

| source | as written | input that shows it | evidently intended | confidence | as-written member | corrected member |
|---|---|---|---|---|---|---|
| src/components/team/create_group.py:97 | the create parser takes only `healer` for the healer list, but `_get_preset` writes the presets' `Sup` tokens as the field's default text | preset `bpsr-10`: default text `DPS:6 Sup:2 Tank:2` gives a healer limit of 1 | `sup` also names the healer list, as in the edit parser (edit_group.py:94), so each preset's text yields its own limits; writing `Healer` in the presets, as the placeholder does (create_group.py:61), would serve equally | high, not executed | TeamCreate.PresetHealerMismatch | TeamCreate.PresetRoundTripFixed |
| src/components/team/edit_group.py:122-129 | the edit overwrites the record but does not reset the memoised `_embed`, so `message.edit(embed=controller.embed)` posts the old embed | a cached controller whose embed was built (after any join), edited to a new name: the posted embed keeps the old title. The edit command is not registered in the code shown (src/cogs/commands/team.py:41, 103-108), so the defect is latent | reset `_embed` after the edit, as every other change does | high, not executed | TeamEdit.EditShowsStaleEmbed | TeamEdit.EditShowsNewEmbed |

Each of the two handlers above is modelled twice, once as written and once corrected.
`TeamCreate.CreateGroupSubmit` parses with the as-written create parser, and
`TeamCreate.CreateGroupSubmitFixed` parses with `sup` accepted
(`ParseCreateLimitsFixed`). `TeamEdit.EditSubmit` keeps the memoised embed,
and `TeamEdit.EditSubmitFixed` resets it.
