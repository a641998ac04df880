/** `AnnouncementModule` (Bot.Core/Modules/AnnouncementModule.cs): per-server
    join and leave announcements with keyword substitution, and the auto-role
    table that gives new users a role.

    Role and channel lookups, the set of servers the module is enabled on and
    message delivery belong to the chat library: lookups are parameters and what
    the event handlers send or do is returned as a list of actions. */
module Announcement {
  import opened Wrappers
  import Text

  const UserNameKeyword: string := "|userName|"
  const LocationKeyword: string := "|location|"

  /** The message a new callback starts with. */
  const DefaultMessage: string := UserNameKeyword + " has joined " + LocationKeyword + "!"

  /** `ParseString`: every user-name keyword is replaced first, then every
      location keyword in the result; text without '|' holds no keyword and is
      kept as it is. */
  function ParseString(input: string, userName: string, locationName: string): (r: string)
    ensures '|' !in input ==> r == input
  {
    Text.ReplaceAll(Text.ReplaceAll(input, UserNameKeyword, userName), LocationKeyword, locationName)
  }

  /** A user-name keyword after plain text is replaced by the user's name, and
      the rest is substituted on its own, when the name holds no '|'. */
  lemma ParseStringUserNameStep(plain: string, rest: string, userName: string, locationName: string)
    requires '|' !in plain && '|' !in userName
    ensures ParseString(plain + UserNameKeyword + rest, userName, locationName) ==
            plain + userName + ParseString(rest, userName, locationName)
  {
    var once := Text.ReplaceAll(rest, UserNameKeyword, userName);
    assert plain + UserNameKeyword + rest == plain + (UserNameKeyword + rest);
    Text.ReplaceAllSkipsPlainPrefix(plain, UserNameKeyword + rest, UserNameKeyword, userName);
    Text.ReplaceAllAtFront(rest, UserNameKeyword, userName);
    assert plain + (userName + once) == (plain + userName) + once;
    Text.ReplaceAllSkipsPlainPrefix(plain + userName, once, LocationKeyword, locationName);
  }

  /** The location keyword is not mistaken for the user-name keyword when no
      '|' follows it. */
  lemma LocationKeywordSurvivesUserPass(rest: string, userName: string)
    requires '|' !in rest
    ensures Text.ReplaceAll(LocationKeyword + rest, UserNameKeyword, userName) == LocationKeyword + rest
  {
    if |rest| >= 9 {
      assert rest[..9][8] != UserNameKeyword[1..][8];
    }
    UserPassOverLocationKeyword(rest, userName);
  }

  /** A location keyword between texts without '|' is replaced by the place. */
  lemma ParseStringLocationStep(plain: string, rest: string, userName: string, locationName: string)
    requires '|' !in plain && '|' !in rest
    ensures ParseString(plain + LocationKeyword + rest, userName, locationName) == plain + locationName + rest
  {
    assert plain + LocationKeyword + rest == plain + (LocationKeyword + rest);
    Text.ReplaceAllSkipsPlainPrefix(plain, LocationKeyword + rest, UserNameKeyword, userName);
    LocationKeywordSurvivesUserPass(rest, userName);
    Text.ReplaceAllSkipsPlainPrefix(plain, LocationKeyword + rest, LocationKeyword, locationName);
    Text.ReplaceAllAtFront(rest, LocationKeyword, locationName);
    assert plain + (locationName + rest) == plain + locationName + rest;
  }

  /** A message made of the user-name keyword, plain words and the location
      keyword names the user and the place, when nothing but the keywords
      holds a '|'. */
  lemma ParseStringUserThenLocation(middle: string, tail: string, userName: string, locationName: string)
    requires '|' !in middle && '|' !in tail && '|' !in userName
    ensures ParseString(UserNameKeyword + middle + LocationKeyword + tail, userName, locationName) ==
            userName + middle + locationName + tail
  {
    var rest := middle + LocationKeyword + tail;
    var whole := UserNameKeyword + middle + LocationKeyword + tail;
    assert whole == [] + UserNameKeyword + rest;
    ParseStringUserNameStep([], rest, userName, locationName);
    ParseStringLocationStep(middle, tail, userName, locationName);
  }

  /** The default message names the user and the place when the user's name
      holds no '|'. */
  lemma DefaultMessageRendering(userName: string, locationName: string)
    requires '|' !in userName
    ensures ParseString(DefaultMessage, userName, locationName) == userName + " has joined " + locationName + "!"
  {
    ParseStringUserThenLocation(" has joined ", "!", userName, locationName);
  }

  /** The substitutions run one after the other: a user name that itself holds
      the location keyword has it replaced too. */
  lemma SubstitutionIsSequential(locationName: string)
    ensures ParseString(UserNameKeyword, LocationKeyword, locationName) == locationName
  {
    Text.ReplaceAllAtFront([], UserNameKeyword, LocationKeyword);
    assert UserNameKeyword + [] == UserNameKeyword;
    assert LocationKeyword + [] == LocationKeyword;
    Text.ReplaceAllAtFront([], LocationKeyword, locationName);
    assert locationName + [] == locationName;
  }

  /** Plain text without '|' passes through both substitutions unchanged. */
  lemma ParseStringPlainStep(plain: string, rest: string, userName: string, locationName: string)
    requires '|' !in plain
    ensures ParseString(plain + rest, userName, locationName) == plain + ParseString(rest, userName, locationName)
  {
    Text.ReplaceAllSkipsPlainPrefix(plain, rest, UserNameKeyword, userName);
    Text.ReplaceAllSkipsPlainPrefix(plain, Text.ReplaceAll(rest, UserNameKeyword, userName), LocationKeyword, locationName);
  }

  /** The user-name pass steps over a location keyword, unless the text after
      it starts with the user-name keyword's tail "userName|": the location
      keyword's closing '|' would then open a user-name keyword. */
  lemma UserPassOverLocationKeyword(rest: string, userName: string)
    requires !Text.StartsWith(rest, UserNameKeyword[1..])
    ensures Text.ReplaceAll(LocationKeyword + rest, UserNameKeyword, userName) ==
            LocationKeyword + Text.ReplaceAll(rest, UserNameKeyword, userName)
  {
    UserPassOverLocationWord("|" + rest, userName);
    UserPassOverClosingBar(rest, userName);
    Text.ConcatSplitAt(LocationKeyword, 9, rest);
    Text.ConcatSplitAt(LocationKeyword, 9, Text.ReplaceAll(rest, UserNameKeyword, userName));
    assert LocationKeyword[9..] == "|";
    assert LocationKeyword[..9] == "|location";
  }

  /** The user-name pass copies "|location" and goes on after it. */
  lemma UserPassOverLocationWord(tail: string, userName: string)
    ensures Text.ReplaceAll("|location" + tail, UserNameKeyword, userName) ==
            "|location" + Text.ReplaceAll(tail, UserNameKeyword, userName)
  {
    assert "|location"[1..] == "location";
    Text.ReplaceAllPassesWord("|location", tail, UserNameKeyword, userName);
  }

  /** The location keyword's closing '|' opens no user-name keyword when the
      text after it does not continue as one. */
  lemma UserPassOverClosingBar(rest: string, userName: string)
    requires !Text.StartsWith(rest, UserNameKeyword[1..])
    ensures Text.ReplaceAll("|" + rest, UserNameKeyword, userName) ==
            "|" + Text.ReplaceAll(rest, UserNameKeyword, userName)
  {
    if |rest| + 1 >= |UserNameKeyword| {
      var k :| 0 <= k < 9 && rest[..9][k] != UserNameKeyword[1..][k];
      Text.ReplaceAllPassesChar('|', rest, UserNameKeyword, userName, k + 1);
    } else {
      Text.ReplaceAllPassesChar('|', rest, UserNameKeyword, userName, 0);
    }
  }

  /** A location keyword after plain text is replaced by the place and
      rendering goes on after it, unless "userName|" follows the keyword. */
  lemma ParseStringLocationChain(plain: string, rest: string, userName: string, locationName: string)
    requires '|' !in plain && !Text.StartsWith(rest, UserNameKeyword[1..])
    ensures ParseString(plain + LocationKeyword + rest, userName, locationName) ==
            plain + locationName + ParseString(rest, userName, locationName)
  {
    var once := Text.ReplaceAll(rest, UserNameKeyword, userName);
    assert plain + LocationKeyword + rest == plain + (LocationKeyword + rest);
    Text.ReplaceAllSkipsPlainPrefix(plain, LocationKeyword + rest, UserNameKeyword, userName);
    UserPassOverLocationKeyword(rest, userName);
    Text.ReplaceAllSkipsPlainPrefix(plain, LocationKeyword + once, LocationKeyword, locationName);
    Text.ReplaceAllAtFront(once, LocationKeyword, locationName);
  }

  /** A user-name keyword at the front becomes the user's name, when the name
      holds no '|'. */
  lemma ParseStringUserNameFront(rest: string, userName: string, locationName: string)
    requires '|' !in userName
    ensures ParseString(UserNameKeyword + rest, userName, locationName) ==
            userName + ParseString(rest, userName, locationName)
  {
    Text.ReplaceAllAtFront(rest, UserNameKeyword, userName);
    Text.ReplaceAllSkipsPlainPrefix(userName, Text.ReplaceAll(rest, UserNameKeyword, userName), LocationKeyword, locationName);
  }

  /** A location keyword at the front becomes the place, unless "userName|"
      follows it. */
  lemma ParseStringLocationFront(rest: string, userName: string, locationName: string)
    requires !Text.StartsWith(rest, UserNameKeyword[1..])
    ensures ParseString(LocationKeyword + rest, userName, locationName) ==
            locationName + ParseString(rest, userName, locationName)
  {
    UserPassOverLocationKeyword(rest, userName);
    Text.ReplaceAllAtFront(Text.ReplaceAll(rest, UserNameKeyword, userName), LocationKeyword, locationName);
  }

  /** The exception: "userName|" right after a location keyword completes a
      user-name keyword with the location keyword's closing '|', so the user's
      name is put in and the location keyword is lost. */
  lemma LocationKeywordLosesItsBar(userName: string, locationName: string)
    requires '|' !in userName
    ensures ParseString(LocationKeyword + UserNameKeyword[1..], userName, locationName) == "|location" + userName
  {
    Text.ConcatSplitAt(LocationKeyword, 9, UserNameKeyword[1..]);
    assert LocationKeyword[..9] == "|location" && LocationKeyword[9..] + UserNameKeyword[1..] == UserNameKeyword;
    UserPassOverLocationWord(UserNameKeyword, userName);
    Text.ReplaceAllAtFront([], UserNameKeyword, userName);
    assert UserNameKeyword + [] == UserNameKeyword && userName + [] == userName;
    LocationPassOverBareWord(userName, locationName);
  }

  /** Without its closing '|', the location keyword is plain text to the
      location pass. */
  lemma LocationPassOverBareWord(text: string, locationName: string)
    requires '|' !in text
    ensures Text.ReplaceAll("|location" + text, LocationKeyword, locationName) == "|location" + text
  {
    Text.ReplaceAllSkipsPlainPrefix("location", text, LocationKeyword, locationName);
    Text.ConcatSplitAt("|location", 1, text);
    assert "|location"[..1] == "|" && "|location"[1..] == "location";
    if |text| + 1 + 8 >= |LocationKeyword| {
      assert ("|" + ("location" + text))[9] == text[0];
    }
    Text.ReplaceAllPassesChar('|', "location" + text, LocationKeyword, locationName, 9);
  }

  /** A message as its author writes it: plain text and the two keywords. */
  datatype Piece = Plain(text: string) | UserNameSlot | LocationSlot

  /** The text a piece is written as. */
  function Spelling(p: Piece): string {
    match p
    case Plain(t) => t
    case UserNameSlot => UserNameKeyword
    case LocationSlot => LocationKeyword
  }

  /** The text a piece stands for. */
  function Filled(p: Piece, userName: string, locationName: string): string {
    match p
    case Plain(t) => t
    case UserNameSlot => userName
    case LocationSlot => locationName
  }

  /** The message text the pieces spell. */
  function Flatten(pieces: seq<Piece>): string
    decreases |pieces|
  {
    if pieces == [] then [] else Spelling(pieces[0]) + Flatten(pieces[1..])
  }

  /** The message the author means: each keyword filled in. */
  function Render(pieces: seq<Piece>, userName: string, locationName: string): string
    decreases |pieces|
  {
    if pieces == [] then [] else Filled(pieces[0], userName, locationName) + Render(pieces[1..], userName, locationName)
  }

  /** No location keyword is directly followed by "userName|". */
  predicate BarsKept(pieces: seq<Piece>) {
    forall i :: 0 <= i < |pieces| && pieces[i].LocationSlot? ==> !Text.StartsWith(Flatten(pieces[i + 1..]), UserNameKeyword[1..])
  }

  /** No plain piece holds a '|'. */
  predicate PlainWithoutBar(pieces: seq<Piece>) {
    forall i :: 0 <= i < |pieces| && pieces[i].Plain? ==> '|' !in pieces[i].text
  }

  /** Both conditions hold of the pieces after the first. */
  lemma PiecesConditionsOfTail(pieces: seq<Piece>)
    requires pieces != [] && PlainWithoutBar(pieces) && BarsKept(pieces)
    ensures PlainWithoutBar(pieces[1..]) && BarsKept(pieces[1..])
  {
    var rest := pieces[1..];
    forall i | 0 <= i < |rest|
      ensures rest[i] == pieces[i + 1] && rest[i + 1..] == pieces[i + 2..]
    {
    }
  }

  /** One piece at the front is rendered as its author means and the rest is
      substituted on its own. */
  lemma ParseStringPieceStep(p: Piece, rest: string, userName: string, locationName: string)
    requires p.Plain? ==> '|' !in p.text
    requires p.LocationSlot? ==> !Text.StartsWith(rest, UserNameKeyword[1..])
    requires '|' !in userName
    ensures ParseString(Spelling(p) + rest, userName, locationName) ==
            Filled(p, userName, locationName) + ParseString(rest, userName, locationName)
  {
    match p
    case Plain(t) =>
      ParseStringPlainStep(t, rest, userName, locationName);
    case UserNameSlot =>
      ParseStringUserNameFront(rest, userName, locationName);
    case LocationSlot =>
      ParseStringLocationFront(rest, userName, locationName);
  }

  /** Every message made of plain text without '|' and the two keywords renders
      as its author means, with every keyword filled in wherever it stands,
      when the user's name holds no '|' and no location keyword is directly
      followed by "userName|". */
  lemma {:induction false} ParseStringRendersPieces(pieces: seq<Piece>, userName: string, locationName: string)
    requires PlainWithoutBar(pieces) && BarsKept(pieces) && '|' !in userName
    ensures ParseString(Flatten(pieces), userName, locationName) == Render(pieces, userName, locationName)
    decreases |pieces|
  {
    if pieces != [] {
      PiecesConditionsOfTail(pieces);
      ParseStringRendersPieces(pieces[1..], userName, locationName);
      ParseStringPieceStep(pieces[0], Flatten(pieces[1..]), userName, locationName);
    }
  }

  /** A text channel of the server. */
  datatype TextChannel = TextChannel(id: nat, name: string)

  /** The `channel` subcommand's lookup: the first text channel whose lower-cased
      name equals the lower-cased query. */
  function FindTextChannel(channels: seq<TextChannel>, query: string): (r: Option<TextChannel>)
    ensures r.Some? ==> r.value in channels && Text.Lower(r.value.name) == Text.Lower(query)
    ensures r.None? <==> forall i :: 0 <= i < |channels| ==> Text.Lower(channels[i].name) != Text.Lower(query)
    ensures r.Some? ==> exists i :: 0 <= i < |channels| && channels[i] == r.value &&
                          forall j :: 0 <= j < i ==> Text.Lower(channels[j].name) != Text.Lower(query)
  {
    var wanted := Text.Lower(query);
    var i := FirstIndex(channels, (c: TextChannel) => Text.Lower(c.name) == wanted);
    if i.Some? then Some(channels[i.value]) else None
  }

  /** `UserEventCallback`. */
  class UserEventCallback {
    var channel: Option<TextChannel>
    var channelId: nat
    var message: string
    var isEnabled: bool

    /** `ChannelId` always names the channel once one is set. */
    ghost predicate Valid()
      reads this
    {
      channel.Some? ==> channel.value.id == channelId
    }

    /** `UserEventCallback(channel, message)`: starts enabled. */
    constructor (channel: TextChannel, message: string)
      ensures Valid()
      ensures this.channel == Some(channel) && channelId == channel.id
      ensures this.message == message && isEnabled
    {
      this.channel := Some(channel);
      channelId := channel.id;
      this.message := message;
      isEnabled := true;
    }

    /** The JSON constructor: no channel object until it is looked up again. */
    constructor Restore(channelId: nat, message: string, isEnabled: bool)
      ensures Valid()
      ensures channel == None && this.channelId == channelId
      ensures this.message == message && this.isEnabled == isEnabled
    {
      channel := None;
      this.channelId := channelId;
      this.message := message;
      this.isEnabled := isEnabled;
    }

    /** The `Channel` setter also records the channel's id. */
    method SetChannel(c: TextChannel)
      modifies this`channel, this`channelId
      ensures Valid()
      ensures channel == Some(c) && channelId == c.id
    {
      channel := Some(c);
      channelId := c.id;
    }
  }

  /** Which table a subcommand works on. */
  datatype EventKind = UserJoined | UserLeft

  /** The group check of the "exists" subcommands: an enabled callback is
      registered for the server. */
  predicate CallbackExists(subs: map<nat, UserEventCallback>, serverId: nat)
    reads subs.Values
    ensures CallbackExists(subs, serverId) ==> serverId in subs
  {
    serverId in subs && subs[serverId].isEnabled
  }

  /** The group check of the "doesn't exist" subcommands, written out in the
      source as its own test; it is the negation of `CallbackExists`, so for
      every server exactly one of the two command groups is available. */
  predicate CallbackMissing(subs: map<nat, UserEventCallback>, serverId: nat)
    reads subs.Values
    ensures CallbackMissing(subs, serverId) <==> !CallbackExists(subs, serverId)
  {
    serverId !in subs || !subs[serverId].isEnabled
  }

  /** No callback object is filed under two server ids. */
  ghost predicate Distinct(subs: map<nat, UserEventCallback>) {
    forall a, b :: a in subs && b in subs && a != b ==> subs[a] != subs[b]
  }

  /** What the event handlers do. */
  datatype Action =
    | Announce(channelId: nat, text: string)
    | AssignRole(roleId: nat)
    | RoleMissingNotice(channelId: nat)

  class AnnouncementModule {
    var joinedSubs: map<nat, UserEventCallback>
    var leftSubs: map<nat, UserEventCallback>
    /** Server id to the id of the role given to new users. */
    var roleSubs: map<nat, nat>

    /** Every callback object belongs to one server of one table, and each keeps
        its channel id in step with its channel. */
    ghost predicate Valid()
      reads this, joinedSubs.Values, leftSubs.Values
    {
      Distinct(joinedSubs) && Distinct(leftSubs) &&
      (forall a, b :: a in joinedSubs && b in leftSubs ==> joinedSubs[a] != leftSubs[b]) &&
      (forall id :: id in joinedSubs ==> joinedSubs[id].Valid()) &&
      (forall id :: id in leftSubs ==> leftSubs[id].Valid())
    }

    constructor ()
      ensures Valid()
      ensures joinedSubs == map[] && leftSubs == map[] && roleSubs == map[]
    {
      joinedSubs, leftSubs, roleSubs := map[], map[], map[];
    }

    function Subs(kind: EventKind): map<nat, UserEventCallback>
      reads this
    {
      if kind == UserJoined then joinedSubs else leftSubs
    }

    /** The table a command on `kind` does not work on. */
    function Other(kind: EventKind): map<nat, UserEventCallback>
      reads this
    {
      if kind == UserJoined then leftSubs else joinedSubs
    }

    /** `enable`, available while no enabled callback exists: an existing entry
        is only re-enabled, keeping its message and channel; otherwise a new
        enabled entry with the default message is added. */
    method Enable(kind: EventKind, serverId: nat, channel: TextChannel) returns (ran: bool)
      requires Valid()
      modifies this`joinedSubs, this`leftSubs, Subs(kind).Values`isEnabled
      ensures Valid()
      ensures ran <==> old(CallbackMissing(Subs(kind), serverId))
      ensures Other(kind) == old(Other(kind))
      ensures forall id :: id in Other(kind) ==> Other(kind)[id].isEnabled == old(Other(kind)[id].isEnabled)
      ensures forall id :: id in old(Subs(kind)) && id != serverId ==>
                id in Subs(kind) && Subs(kind)[id] == old(Subs(kind)[id]) &&
                Subs(kind)[id].isEnabled == old(Subs(kind)[id].isEnabled)
      ensures !ran ==> Subs(kind) == old(Subs(kind))
      ensures ran && serverId in old(Subs(kind)) ==> Subs(kind) == old(Subs(kind)) && Subs(kind)[serverId].isEnabled
      ensures ran && serverId !in old(Subs(kind)) ==>
                serverId in Subs(kind) && fresh(Subs(kind)[serverId]) &&
                Subs(kind) == old(Subs(kind))[serverId := Subs(kind)[serverId]] &&
                Subs(kind)[serverId].message == DefaultMessage && Subs(kind)[serverId].isEnabled &&
                Subs(kind)[serverId].channel == Some(channel)
    {
      ran := CallbackMissing(Subs(kind), serverId);
      if !ran {
        return;
      }
      if serverId in Subs(kind) {
        Subs(kind)[serverId].isEnabled := true;
      } else {
        var created := new UserEventCallback(channel, DefaultMessage);
        if kind == UserJoined {
          joinedSubs := joinedSubs[serverId := created];
        } else {
          leftSubs := leftSubs[serverId := created];
        }
      }
    }

    /** `destroy`, available while an enabled callback exists: the entry stays,
        disabled. */
    method Destroy(kind: EventKind, serverId: nat) returns (ran: bool)
      requires Valid()
      modifies Subs(kind).Values`isEnabled
      ensures Valid()
      ensures ran <==> serverId in Subs(kind) && old(Subs(kind)[serverId].isEnabled)
      ensures ran ==> serverId in Subs(kind) && !Subs(kind)[serverId].isEnabled
      ensures forall id :: id in Subs(kind) && (id != serverId || !ran) ==>
                Subs(kind)[id].isEnabled == old(Subs(kind)[id].isEnabled)
      ensures forall id :: id in Other(kind) ==> Other(kind)[id].isEnabled == old(Other(kind)[id].isEnabled)
    {
      ran := CallbackExists(Subs(kind), serverId);
      if ran {
        Subs(kind)[serverId].isEnabled := false;
      }
    }

    /** `message`, available while an enabled callback exists. */
    method SetMessage(kind: EventKind, serverId: nat, msg: string) returns (ran: bool)
      requires Valid()
      modifies Subs(kind).Values`message
      ensures Valid()
      ensures ran <==> serverId in Subs(kind) && Subs(kind)[serverId].isEnabled
      ensures ran ==> Subs(kind)[serverId].message == msg
      ensures forall id :: id in Subs(kind) && (id != serverId || !ran) ==>
                Subs(kind)[id].message == old(Subs(kind)[id].message)
      ensures forall id :: id in Other(kind) ==> Other(kind)[id].message == old(Other(kind)[id].message)
    {
      ran := CallbackExists(Subs(kind), serverId);
      if ran {
        Subs(kind)[serverId].message := msg;
      }
    }

    /** `channel`, available while an enabled callback exists: the named text
        channel becomes the callback channel when one matches. */
    method SetChannel(kind: EventKind, serverId: nat, channels: seq<TextChannel>, query: string)
      returns (ran: bool, found: Option<TextChannel>)
      requires Valid()
      modifies Subs(kind).Values`channel, Subs(kind).Values`channelId
      ensures Valid()
      ensures ran <==> serverId in Subs(kind) && Subs(kind)[serverId].isEnabled
      ensures found == FindTextChannel(channels, query)
      ensures ran && found.Some? ==>
                Subs(kind)[serverId].channel == found && Subs(kind)[serverId].channelId == found.value.id
      ensures forall id :: id in Subs(kind) && (id != serverId || !ran || found.None?) ==>
                Subs(kind)[id].channel == old(Subs(kind)[id].channel) &&
                Subs(kind)[id].channelId == old(Subs(kind)[id].channelId)
      ensures forall id :: id in Other(kind) ==>
                Other(kind)[id].channel == old(Other(kind)[id].channel) &&
                Other(kind)[id].channelId == old(Other(kind)[id].channelId)
    {
      ran := CallbackExists(Subs(kind), serverId);
      found := FindTextChannel(channels, query);
      if ran && found.Some? {
        Subs(kind)[serverId].SetChannel(found.value);
      }
    }

    /** `autorole create`, available while the server has no entry; `role` is the
        id of the role found by name, if any. */
    method CreateAutoRole(serverId: nat, role: Option<nat>) returns (ran: bool)
      requires Valid()
      modifies this`roleSubs
      ensures Valid()
      ensures ran <==> serverId !in old(roleSubs)
      ensures ran && role.Some? ==> roleSubs == old(roleSubs)[serverId := role.value]
      ensures !ran || role.None? ==> roleSubs == old(roleSubs)
    {
      ran := serverId !in roleSubs;
      if ran && role.Some? {
        roleSubs := roleSubs[serverId := role.value];
      }
    }

    /** `autorole role`, available while the server has an entry: overwrites it. */
    method ChangeAutoRole(serverId: nat, role: Option<nat>) returns (ran: bool)
      requires Valid()
      modifies this`roleSubs
      ensures Valid()
      ensures ran <==> serverId in old(roleSubs)
      ensures ran && role.Some? ==> roleSubs == old(roleSubs)[serverId := role.value]
      ensures !ran || role.None? ==> roleSubs == old(roleSubs)
    {
      ran := serverId in roleSubs;
      if ran && role.Some? {
        roleSubs := roleSubs[serverId := role.value];
      }
    }

    /** `RemoveAutoRoleAssigner`. */
    method RemoveAutoRoleAssigner(serverId: nat)
      requires Valid()
      modifies this`roleSubs
      ensures Valid()
      ensures roleSubs == old(roleSubs) - {serverId}
    {
      roleSubs := roleSubs - {serverId};
    }

    /** The announcement an enabled callback of the table makes, if any. */
    function AnnouncementFor(kind: EventKind, serverId: nat, userName: string, serverName: string): (r: seq<Action>)
      reads this, Subs(kind).Values
      ensures r != [] <==> CallbackExists(Subs(kind), serverId)
      ensures r != [] ==>
                r == [Announce(Subs(kind)[serverId].channelId, ParseString(Subs(kind)[serverId].message, userName, serverName))]
    {
      if CallbackExists(Subs(kind), serverId) then
        var cb := Subs(kind)[serverId];
        [Announce(cb.channelId, ParseString(cb.message, userName, serverName))]
      else []
    }

    /** The `UserJoined` handler: the join announcement, then the auto role; a
        stored role that no longer exists removes the entry and is reported in
        the server's first text channel. */
    method OnUserJoined(serverId: nat, serverEnabled: bool, userName: string, serverName: string,
                        roleExists: nat -> bool, firstTextChannel: Option<nat>) returns (actions: seq<Action>)
      requires Valid()
      modifies this`roleSubs
      ensures Valid()
      ensures !serverEnabled ==> actions == [] && roleSubs == old(roleSubs)
      ensures serverEnabled && serverId !in old(roleSubs) ==>
                actions == AnnouncementFor(UserJoined, serverId, userName, serverName) && roleSubs == old(roleSubs)
      ensures serverEnabled && serverId in old(roleSubs) && roleExists(old(roleSubs)[serverId]) ==>
                actions == AnnouncementFor(UserJoined, serverId, userName, serverName) + [AssignRole(old(roleSubs)[serverId])] &&
                roleSubs == old(roleSubs)
      ensures serverEnabled && serverId in old(roleSubs) && !roleExists(old(roleSubs)[serverId]) ==>
                actions == AnnouncementFor(UserJoined, serverId, userName, serverName) +
                           (if firstTextChannel.Some? then [RoleMissingNotice(firstTextChannel.value)] else []) &&
                roleSubs == old(roleSubs) - {serverId}
    {
      if !serverEnabled {
        return [];
      }
      actions := AnnouncementFor(UserJoined, serverId, userName, serverName);
      if serverId in roleSubs {
        var role := roleSubs[serverId];
        if !roleExists(role) {
          RemoveAutoRoleAssigner(serverId);
          if firstTextChannel.Some? {
            actions := actions + [RoleMissingNotice(firstTextChannel.value)];
          }
          return;
        }
        actions := actions + [AssignRole(role)];
      }
    }

    /** The `UserLeft` handler. */
    method OnUserLeft(serverId: nat, serverEnabled: bool, userName: string, serverName: string)
      returns (actions: seq<Action>)
      ensures !serverEnabled ==> actions == []
      ensures serverEnabled ==> actions == AnnouncementFor(UserLeft, serverId, userName, serverName)
      ensures |actions| <= 1
    {
      if !serverEnabled || serverId !in leftSubs {
        return [];
      }
      var callback := leftSubs[serverId];
      if callback.isEnabled {
        return [Announce(callback.channelId, ParseString(callback.message, userName, serverName))];
      }
      return [];
    }
  }
}
