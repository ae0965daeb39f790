/** Who is present in which joined channel, indexed both ways. */
module Presence {
  import opened Text
  import opened Names
  import opened Lists

  type UserId = nat

  datatype User = User(key: string, nick: string, channels: seq<string>)
  datatype Members = Members(key: string, name: string, users: set<UserId>)

  type Users = map<UserId, User>
  type Channels = map<string, Members>
  type Nicks = map<string, UserId>

  // ---------- The invariant, table by table ----------

  /** The nickname table and the user table are inverse. */
  ghost predicate NicksMatch(byNick: Nicks, users: Users) {
    (forall id :: id in users ==> users[id].key in byNick && byNick[users[id].key] == id) &&
    (forall id :: id in users ==> users[id].key == NicknameKey(users[id].nick)) &&
    forall k :: k in byNick ==> byNick[k] in users && users[byNick[k]].key == k
  }

  /** Every channel is filed under the key its name folds to. */
  ghost predicate KeysMatch(channels: Channels, m: CaseMapping) {
    forall c :: c in channels ==> channels[c].key == c && Fold(m, channels[c].name) == c
  }

  /** Every membership a channel lists, the user lists. */
  ghost predicate DownMatch(users: Users, channels: Channels) {
    forall c, id :: c in channels && id in channels[c].users ==> id in users && c in users[id].channels
  }

  /** Every membership a user lists, the channel lists, except that users in
      `leaving` still list `left`. */
  ghost predicate UpMatch(users: Users, channels: Channels, left: string, leaving: set<UserId>) {
    forall id, c :: id in users && c in users[id].channels ==>
      (c in channels && id in channels[c].users) || (c == left && id in leaving)
  }

  /** No user outside all channels, except those in `arriving`. */
  ghost predicate Housed(users: Users, arriving: set<UserId>) {
    forall id :: id in users ==> Distinct(users[id].channels) && (users[id].channels != [] || id in arriving)
  }

  ghost predicate Issued(users: Users, next: nat) {
    forall id :: id in users ==> id < next
  }

  /** The members of the channel with key `c`. */
  function MembersOf(channels: Channels, c: string): set<UserId> {
    if c in channels then channels[c].users else {}
  }

  // ---------- One user forgotten, or out of one channel ----------

  /** The channels without user `id`. */
  function Without(channels: Channels, listed: seq<string>, id: UserId): Channels {
    map c | c in channels :: if c in listed then channels[c].(users := channels[c].users - {id}) else channels[c]
  }

  /** Forgetting a user keeps all tables matching. */
  lemma ForgetKeeps(byNick: Nicks, users: Users, channels: Channels, m: CaseMapping, next: nat,
      id: UserId, left: string, leaving: set<UserId>, arriving: set<UserId>)
    requires NicksMatch(byNick, users) && KeysMatch(channels, m) && Issued(users, next) && id in users
    requires DownMatch(users, channels) && UpMatch(users, channels, left, leaving) && Housed(users, arriving)
    ensures
      var (n', u', c') := (byNick - {users[id].key}, users - {id}, Without(channels, users[id].channels, id));
      NicksMatch(n', u') && KeysMatch(c', m) && Issued(u', next) &&
      DownMatch(u', c') && UpMatch(u', c', left, leaving - {id}) && Housed(u', arriving - {id})
  {
  }

  /** So does taking a user out of one of several channels. */
  lemma LeaveKeeps(byNick: Nicks, users: Users, channels: Channels,
      id: UserId, left: string, leaving: set<UserId>)
    requires NicksMatch(byNick, users) && id in users && id !in MembersOf(channels, left)
    requires DownMatch(users, channels) && UpMatch(users, channels, left, leaving) && Housed(users, {})
    ensures
      var rest := Except(users[id].channels, left);
      var u' := users[id := users[id].(channels := rest)];
      NicksMatch(byNick, u') && DownMatch(u', channels) &&
      UpMatch(u', channels, left, leaving - {id}) && Housed(u', if rest == [] then {id} else {})
  {
    hide Except;
  }

  /** The users once those in `ids` have left the channel `left`. */
  ghost function AfterLeaving(users: Users, ids: set<UserId>, left: string): Users {
    map id | id in users && (id in ids ==> Except(users[id].channels, left) != []) ::
      if id in ids then users[id].(channels := Except(users[id].channels, left)) else users[id]
  }

  lemma AfterLeavingOne(users: Users, ids: set<UserId>, left: string, id: UserId)
    requires id !in ids
    ensures
      var u := AfterLeaving(users, ids, left);
      AfterLeaving(users, ids + {id}, left) ==
      if id !in users then u
      else if Except(users[id].channels, left) == [] then u - {id}
      else u[id := users[id].(channels := Except(users[id].channels, left))]
    ensures id in users ==> id in AfterLeaving(users, ids, left) && AfterLeaving(users, ids, left)[id] == users[id]
  {
  }

  /** The users once those in `present` list the channel `c`. */
  function Entered(users: Users, present: set<UserId>, c: string): Users {
    map id | id in users ::
      if id in present && c !in users[id].channels then users[id].(channels := users[id].channels + [c]) else users[id]
  }

  lemma EnterTables(byNick: Nicks, users: Users, next: nat, c: string, present: set<UserId>)
    requires NicksMatch(byNick, users) && Issued(users, next) && Housed(users, present)
    ensures
      var u' := Entered(users, present, c);
      NicksMatch(byNick, u') && Issued(u', next) && Housed(u', {})
  {
  }

  /** Replacing a membership leaves only the former members to be taken out. */
  lemma EnterLinks(users: Users, channels: Channels, m: CaseMapping, channel: string, present: set<UserId>)
    requires KeysMatch(channels, m) && present <= users.Keys
    requires DownMatch(users, channels) && UpMatch(users, channels, "", {})
    ensures
      var c := Fold(m, channel);
      var (u', c') := (Entered(users, present, c), channels[c := Members(c, channel, present)]);
      KeysMatch(c', m) && DownMatch(u', c') && UpMatch(u', c', c, MembersOf(channels, c) - present)
  {
  }

  /** Forgetting a channel leaves its members to be taken out of it. */
  lemma RemovalKeeps(users: Users, channels: Channels, m: CaseMapping, c: string)
    requires KeysMatch(channels, m) && DownMatch(users, channels) && UpMatch(users, channels, "", {})
    ensures KeysMatch(channels - {c}, m) && DownMatch(users, channels - {c})
    ensures UpMatch(users, channels - {c}, c, MembersOf(channels, c))
  {
  }

  /** A new user, still in no channel, keeps all tables matching. */
  lemma NewUserKeeps(byNick: Nicks, users: Users, channels: Channels, next: nat, present: set<UserId>, nick: string)
    requires NicksMatch(byNick, users) && Issued(users, next) && NicknameKey(nick) !in byNick
    requires DownMatch(users, channels) && UpMatch(users, channels, "", {}) && Housed(users, present)
    ensures
      var key := NicknameKey(nick);
      var (n', u') := (byNick[key := next], users[next := User(key, nick, [])]);
      NicksMatch(n', u') && Issued(u', next + 1) && DownMatch(u', channels) &&
      UpMatch(u', channels, "", {}) && Housed(u', present + {next})
  {
  }

  /** So does another spelling of the same nickname. */
  lemma SpellingKeeps(byNick: Nicks, users: Users, channels: Channels, next: nat, present: set<UserId>, id: UserId,
                      nick: string)
    requires NicksMatch(byNick, users) && Issued(users, next) && id in users && users[id].key == NicknameKey(nick)
    requires DownMatch(users, channels) && UpMatch(users, channels, "", {}) && Housed(users, present)
    ensures
      var u' := users[id := users[id].(nick := nick)];
      NicksMatch(byNick, u') && Issued(u', next) && DownMatch(u', channels) &&
      UpMatch(u', channels, "", {}) && Housed(u', present + {id})
  {
  }

  /** The nickname keys a roster lists; an empty nickname is nobody. */
  ghost function ListedKeys(members: seq<string>): set<string> {
    RosterKeys(members) - {""}
  }

  lemma ListedKeysNext(members: seq<string>, i: nat)
    requires i < |members|
    ensures ListedKeys(members[..i + 1]) == ListedKeys(members[..i]) +
            if WithoutRank(members[i]) == [] then {} else {NicknameKey(WithoutRank(members[i]))}
  {
    assert members[..i + 1] == members[..i] + [members[i]];
    assert |NicknameKey(WithoutRank(members[i]))| == |WithoutRank(members[i])|;
  }

  /** How a roster spells a nickname, the last one counting. */
  ghost function Spelling(members: seq<string>, key: string): Option<string> {
    if members == [] then None
    else
      var last := WithoutRank(members[|members| - 1]);
      if last != [] && NicknameKey(last) == key then Some(last) else Spelling(members[..|members| - 1], key)
  }

  lemma {:induction false} SpellingMeans(members: seq<string>, key: string, name: string)
    ensures Spelling(members, key) == Some(name) <==>
              exists i :: 0 <= i < |members| && WithoutRank(members[i]) == name != "" && NicknameKey(name) == key &&
                          forall j :: i < j < |members| && WithoutRank(members[j]) != "" ==>
                            NicknameKey(WithoutRank(members[j])) != key
  {
    hide NicknameKey, WithoutRank;
    if members != [] {
      var front, last := members[..|members| - 1], WithoutRank(members[|members| - 1]);
      SpellingMeans(front, key, name);
      if last != "" && NicknameKey(last) == key {
        assert WithoutRank(members[|members| - 1]) == last;
      } else {
        assert forall i :: 0 <= i < |front| ==> front[i] == members[i];
      }
    }
  }

  /** Users the roster lists are spelled as there, all others as before. */
  ghost predicate Respelled(before: Users, members: seq<string>, after: Users) {
    forall id :: id in after ==>
      match Spelling(members, after[id].key)
      case Some(n) => after[id].nick == n
      case None => id in before && after[id].nick == before[id].nick
  }

  lemma RespelledNone(users: Users)
    ensures Respelled(users, [], users)
  {
  }

  lemma RespelledNext(before: Users, members: seq<string>, i: nat, users: Users, after: Users, id: UserId)
    requires i < |members| && Respelled(before, members[..i], users)
    requires WithoutRank(members[i]) == [] ==> after == users
    requires WithoutRank(members[i]) != [] ==>
               && id in after && after[id].nick == WithoutRank(members[i])
               && after[id].key == NicknameKey(WithoutRank(members[i]))
               && forall j ::
                    j in after && j != id ==> j in users && after[j] == users[j] && after[j].key != after[id].key
    ensures Respelled(before, members[..i + 1], after)
  {
    hide NicknameKey;
    assert members[..i + 1][..i] == members[..i];
  }

  /** `after` has every user of `before` under the same key and in the same
      channels, and otherwise only users with ids not issued before. */
  ghost predicate Extends(before: Users, after: Users, next: nat) {
    (forall id :: id in before ==>
      id in after && after[id].key == before[id].key && after[id].channels == before[id].channels) &&
    forall id :: id in after && id !in before ==> next <= id && after[id].channels == []
  }

  /** The new keys of the channels a user is in, each once. */
  function Rekeyed(moved: map<string, string>, was: seq<string>): (r: seq<string>)
    ensures Distinct(r)
    ensures forall k :: k in r <==> exists c :: c in was && c in moved && moved[c] == k
  {
    if was == [] then []
    else
      var (front, last) := (was[..|was| - 1], was[|was| - 1]);
      assert was == front + [last];
      var kept := Rekeyed(moved, front);
      if last in moved && moved[last] !in kept then kept + [moved[last]] else kept
  }

  /** Channel `members` filed under `k`, together with what is there. */
  function Merged(channels: Channels, k: string, members: Members): (r: Members)
    ensures r.users == MembersOf(channels, k) + members.users
    ensures r.name == members.name || (k in channels && r.name == channels[k].name)
  {
    var merged := if k in channels then channels[k] else Members("", "", {});
    var named := if merged.key == "" then merged.(key := k, name := members.name) else merged;
    named.(users := named.users + members.users)
  }

  lemma MergedNamed(channels: Channels, m: CaseMapping, members: Members)
    requires KeysMatch(channels, m)
    ensures
      var k := Fold(m, members.name);
      Merged(channels, k, members).key == k && KeysMatch(channels[k := Merged(channels, k, members)], m)
  {
  }

  /** Channels `done` of `was` were filed again under `m`. */
  ghost predicate Refolds(was: Channels, done: set<string>, m: CaseMapping, moved: map<string, string>) {
    moved.Keys == done && done <= was.Keys && forall c :: c in done ==> moved[c] == Fold(m, was[c].name)
  }

  /** A channel filed under `k` has this name. */
  ghost predicate NamedLike(was: Channels, moved: map<string, string>, k: string, name: string)
    requires moved.Keys <= was.Keys
  {
    exists c :: c in moved && moved[c] == k && name == was[c].name
  }

  lemma NamedLikeNext(was: Channels, moved: map<string, string>, k: string, name: string, c: string, key: string)
    requires moved.Keys <= was.Keys && c in was && c !in moved
    ensures NamedLike(was, moved, k, name) ==> NamedLike(was, moved[c := key], k, name)
    ensures NamedLike(was, moved[c := key], key, was[c].name)
  {
    assert moved[c := key][c] == key;
    if NamedLike(was, moved, k, name) {
      var e :| e in moved && moved[e] == k && name == was[e].name;
      assert moved[c := key][e] == k;
    }
  }

  /** Those that fold alike became one with the members of all. */
  ghost predicate Refiled(was: Channels, moved: map<string, string>, channels: Channels) {
    && moved.Keys <= was.Keys
    && (forall c :: c in moved ==> moved[c] in channels && was[c].users <= channels[moved[c]].users)
    && (forall k :: k in channels ==> NamedLike(was, moved, k, channels[k].name))
    && forall k, id :: k in channels && id in channels[k].users ==>
         exists c :: c in moved && moved[c] == k && id in was[c].users
  }

  lemma RefiledNext(was: Channels, moved: map<string, string>, channels: Channels, c: string, k: string)
    requires Refiled(was, moved, channels) && c in was && c !in moved
    ensures Refiled(was, moved[c := k], channels[k := Merged(channels, k, was[c])])
  {
    hide Merged, NamedLike;
    var (moved', channels') := (moved[c := k], channels[k := Merged(channels, k, was[c])]);
    forall d | d in channels' ensures NamedLike(was, moved', d, channels'[d].name) {
      NamedLikeNext(was, moved, d, channels'[d].name, c, k);
    }
    forall d, id | d in channels' && id in channels'[d].users
      ensures exists e :: e in moved' && moved'[e] == d && id in was[e].users
    {
      if d == k && id in was[c].users {
        assert moved'[c] == d;
      } else {
        var e :| e in moved && moved[e] == d && id in was[e].users;
        assert moved'[e] == d;
      }
    }
  }

  /** The users once their channels are filed again. */
  function Followed(users: Users, moved: map<string, string>): Users {
    map id | id in users :: users[id].(channels := Rekeyed(moved, users[id].channels))
  }

  lemma FollowedTables(byNick: Nicks, users: Users, was: Channels, moved: map<string, string>, next: nat)
    requires NicksMatch(byNick, users) && Issued(users, next) && Housed(users, {})
    requires UpMatch(users, was, "", {}) && moved.Keys == was.Keys
    ensures
      var u' := Followed(users, moved);
      NicksMatch(byNick, u') && Issued(u', next) && Housed(u', {})
  {
    hide Rekeyed;
    var u' := Followed(users, moved);
    forall id | id in users
      ensures u'[id].channels != []
    {
      var c := users[id].channels[0];
      assert c in users[id].channels;
      assert moved[c] in u'[id].channels;
    }
  }

  lemma FollowedLinks(users: Users, was: Channels, moved: map<string, string>, channels: Channels)
    requires DownMatch(users, was) && UpMatch(users, was, "", {})
    requires Refiled(was, moved, channels) && moved.Keys == was.Keys
    ensures
      var u' := Followed(users, moved);
      DownMatch(u', channels) && UpMatch(u', channels, "", {})
  {
    hide Rekeyed;
  }

  class PresenceIndex {
    var next: nat
    var byNick: Nicks
    var users: Users
    var channels: Channels
    /** How the server compares channel names. */
    var casemapping: CaseMapping

    /** Both directions agree and nothing is orphaned. */
    ghost predicate Consistent()
      reads this
    {
      ConsistentBut("", {}, {})
    }

    /** The same, while users in `leaving` still list the channel `left`, and
        those in `arriving` may list none. */
    ghost predicate ConsistentBut(left: string, leaving: set<UserId>, arriving: set<UserId>)
      reads this
    {
      && NicksMatch(byNick, users) && KeysMatch(channels, casemapping)
      && DownMatch(users, channels) && UpMatch(users, channels, left, leaving)
      && Housed(users, arriving) && Issued(users, next)
    }

    constructor ()
      ensures Consistent() && users == map[] && channels == map[] && casemapping == Rfc1459
    {
      next, byNick, users, channels, casemapping := 0, map[], map[], map[], Rfc1459;
    }

    function ChannelKey(channel: string): string
      reads this
    {
      Fold(casemapping, channel)
    }

    method Forget(id: UserId, ghost left: string, ghost leaving: set<UserId>, ghost arriving: set<UserId>)
      requires ConsistentBut(left, leaving, arriving)
      modifies this`byNick, this`users, this`channels
      ensures ConsistentBut(left, leaving - {id}, arriving - {id})
      ensures users == old(users) - {id}
      ensures channels ==
                if id in old(users) then Without(old(channels), old(users)[id].channels, id) else old(channels)
    {
      hide NicksMatch, KeysMatch, DownMatch, UpMatch, Housed, Issued;
      if id in users {
        ForgetKeeps(byNick, users, channels, casemapping, next, id, left, leaving, arriving);
        var user := users[id];
        users := users - {id};
        byNick := byNick - {user.key};
        channels := Without(channels, user.channels, id);
      } else {
        Absent(users, channels, id, left, leaving, arriving);
      }
    }

    method Leave(id: UserId, left: string, ghost leaving: set<UserId>)
      requires ConsistentBut(left, leaving, {}) && id !in MembersOf(channels, left)
      modifies this`byNick, this`users, this`channels
      ensures ConsistentBut(left, leaving - {id}, {}) && channels == old(channels)
      ensures users == AfterLeaving(old(users), {id}, left)
    {
      hide NicksMatch, KeysMatch, DownMatch, UpMatch, Housed, Issued, MembersOf, Except, AfterLeaving;
      AfterLeavingOne(users, {}, left, id);
      AfterLeavingNone(users, left);
      if id in users {
        LeaveKeeps(byNick, users, channels, id, left, leaving);
        var rest := Except(users[id].channels, left);
        IssuedAlso(users, next, id, rest);
        users := users[id := users[id].(channels := rest)];
        if rest == [] {
          Forget(id, left, leaving - {id}, {id});
          assert leaving - {id} - {id} == leaving - {id} && {id} - {id} == {};
          WithoutNothing(old(channels), id);
          assert users == old(users) - {id};
        }
      } else {
        Absent(users, channels, id, left, leaving, {});
      }
      assert {} + {id} == {id};
    }

    method LeaveAll(ids: set<UserId>, left: string)
      requires ConsistentBut(left, ids, {}) && ids !! MembersOf(channels, left)
      modifies this`byNick, this`users, this`channels
      ensures Consistent() && channels == old(channels)
      ensures users == AfterLeaving(old(users), ids, left)
    {
      hide NicksMatch, KeysMatch, DownMatch, Housed, Issued, Except, AfterLeaving;
      var rest := ids;
      AfterLeavingNone(users, left);
      assert ids - rest == {};
      while rest != {}
        invariant rest <= ids && channels == old(channels)
        invariant ConsistentBut(left, rest, {})
        invariant users == AfterLeaving(old(users), ids - rest, left)
      {
        var id :| id in rest;
        Leave(id, left, rest);
        AfterLeavingStep(old(users), ids - rest, left, id);
        assert ids - rest + {id} == ids - (rest - {id});
        rest := rest - {id};
      }
      assert ids - {} == ids;
    }

    /** The id of a listed nickname, issued now if it is new. */
    method Enroll(nickname: string, ghost present: set<UserId>) returns (id: UserId)
      requires ConsistentBut("", {}, present)
      modifies this`next, this`byNick, this`users
      ensures ConsistentBut("", {}, present + {id})
      ensures NicknameKey(nickname) in byNick && byNick[NicknameKey(nickname)] == id
      ensures forall k :: k in old(byNick) ==> k in byNick && byNick[k] == old(byNick)[k]
      ensures Extends(old(users), users, old(next)) && old(next) <= next
      ensures id in users && users[id].nick == nickname && users[id].key == NicknameKey(nickname)
      ensures forall j ::
                j in users && j != id ==> j in old(users) && users[j] == old(users)[j] && users[j].key != users[id].key
    {
      hide KeysMatch, DownMatch, UpMatch, Housed, Issued, Fold;
      var key := NicknameKey(nickname);
      if key in byNick {
        id := byNick[key];
        SpellingKeeps(byNick, users, channels, next, present, id, nickname);
        users := users[id := users[id].(nick := nickname)];
      } else {
        NewUserKeeps(byNick, users, channels, next, present, nickname);
        NextUnused(users, next);
        id := next;
        next := next + 1;
        byNick := byNick[key := id];
        users := users[id := User(key, nickname, [])];
      }
    }

    /** The ids of the nicknames a roster lists. */
    method EnrollAll(members: seq<string>) returns (present: set<UserId>)
      requires Consistent()
      modifies this`next, this`byNick, this`users
      ensures ConsistentBut("", {}, present)
      ensures forall id :: id in present <==> id in users && users[id].key in ListedKeys(members)
      ensures ListedKeys(members) <= byNick.Keys
      ensures forall k :: k in old(byNick) ==> k in byNick && byNick[k] == old(byNick)[k]
      ensures Extends(old(users), users, old(next)) && old(next) <= next && Respelled(old(users), members, users)
    {
      hide KeysMatch, DownMatch, UpMatch, Housed, Issued, NicksMatch, ListedKeys, Extends, Respelled;
      present := {};
      RespelledNone(users);
      RosterOfNone(users);
      ExtendsSelf(users, next);
      for i := 0 to |members|
        invariant ConsistentBut("", {}, present)
        invariant forall id :: id in present <==> id in users && users[id].key in ListedKeys(members[..i])
        invariant ListedKeys(members[..i]) <= byNick.Keys
        invariant forall k :: k in old(byNick) ==> k in byNick && byNick[k] == old(byNick)[k]
        invariant Extends(old(users), users, old(next)) && old(next) <= next &&
                  Respelled(old(users), members[..i], users)
      {
        ListedKeysNext(members, i);
        var nickname := WithoutRank(members[i]);
        if nickname != [] {
          ghost var u, n, b := users, next, byNick;
          var id := Enroll(nickname, present);
          ExtendsTwice(old(users), u, users, old(next), n);
          ListedNext(b, byNick, u, users, n, present, ListedKeys(members[..i]), nickname);
          RespelledNext(old(users), members, i, u, users, id);
          present := present + {id};
        } else {
          RespelledNext(old(users), members, i, users, users, 0);
        }
      }
      assert members[..|members|] == members;
    }

    /** Replaces the membership of `channel` by the listed nicknames. Users
        keep their id while they are in any channel; ids are never reused. */
    method ReplaceChannel(channel: string, members: seq<string>)
      requires Consistent()
      modifies this`next, this`byNick, this`users, this`channels
      ensures Consistent()
      ensures channels.Keys == old(channels).Keys + {ChannelKey(channel)} &&
              channels[ChannelKey(channel)].name == channel
      ensures forall d :: d in old(channels) && d != ChannelKey(channel) ==> channels[d] == old(channels)[d]
      ensures ListedKeys(members) <= byNick.Keys
      ensures forall id ::
                id in channels[ChannelKey(channel)].users <==> id in users && users[id].key in ListedKeys(members)
      ensures forall id :: id in old(users) ==>
                (id in users <==>
                   old(users)[id].key in ListedKeys(members) || Elsewhere(old(users)[id], ChannelKey(channel)))
      ensures Continues(old(users), users, old(next)) && old(next) <= next && Respelled(old(users), members, users)
      ensures forall k :: k in old(byNick) && k in byNick ==> byNick[k] == old(byNick)[k]
    {
      hide NicksMatch, KeysMatch, DownMatch, UpMatch, Housed, Issued, ListedKeys, Entered, AfterLeaving, Elsewhere,
           Extends, Continues, Respelled;
      var key := ChannelKey(channel);
      var present := EnrollAll(members);
      ghost var enrolled, nicks := users, byNick;
      EnterTables(byNick, users, next, key, present);
      EnterLinks(users, channels, casemapping, channel, present);
      var departed := (if key in channels then channels[key].users else {}) - present;
      users := Entered(users, present, key);
      channels := channels[key := Members(key, channel, present)];
      LeaveAll(departed, key);
      ReplacedUsers(old(users), enrolled, old(channels), old(next), key, present, ListedKeys(members));
      NicksKept(nicks, enrolled, byNick, users, present, ListedKeys(members));
      RespelledStill(old(users), members, enrolled, users);
    }

    /** Forgets `channel` and everybody only there (we left it). */
    method RemoveChannel(channel: string)
      requires Consistent()
      modifies this`byNick, this`users, this`channels
      ensures Consistent() && channels == old(channels) - {ChannelKey(channel)}
      ensures forall id :: id in users ==> id in old(users) && users[id].key == old(users)[id].key
      ensures forall id :: id in old(users) ==>
                (id in users <==>
                   id !in MembersOf(old(channels), ChannelKey(channel)) ||
                   Elsewhere(old(users)[id], ChannelKey(channel)))
    {
      hide NicksMatch, KeysMatch, DownMatch, UpMatch, Housed, Issued, Elsewhere;
      var key := ChannelKey(channel);
      forall id | id in users
        ensures Except(users[id].channels, key) != [] <==> Elsewhere(users[id], key)
      {
        ExceptEmpties(key, users[id]);
      }
      if key in channels {
        var ids := channels[key].users;
        RemovalKeeps(users, channels, casemapping, key);
        channels := channels - {key};
        LeaveAll(ids, key);
      }
    }

    /** `old` is now called `new`; the presence is the same. A stale holder of
        the new name is forgotten. */
    method Rename(from: string, to: string)
      requires Consistent()
      modifies this`byNick, this`users, this`channels
      ensures Consistent()
      ensures NicknameKey(from) !in old(byNick) ==>
                users == old(users) && byNick == old(byNick) && channels == old(channels)
      ensures NicknameKey(from) in old(byNick) ==>
        var id := old(byNick)[NicknameKey(from)];
        var stale :=
          if NicknameKey(to) in old(byNick) && NicknameKey(to) != NicknameKey(from) then {old(byNick)[NicknameKey(to)]}
          else {};
        && users == (old(users) - stale)[id := User(NicknameKey(to), to, old(users)[id].channels)]
        && byNick == (old(byNick) - {NicknameKey(from)})[NicknameKey(to) := id]
        && channels.Keys == old(channels).Keys
        && forall c :: c in channels ==> channels[c] == old(channels)[c].(users := old(channels)[c].users - stale)
    {
      hide NicksMatch, KeysMatch, DownMatch, UpMatch, Housed, Issued, Without, NicknameKey;
      if NicknameKey(from) !in byNick {
        return;
      }
      var id := byNick[NicknameKey(from)];
      var key := NicknameKey(to);
      NicksRenamed(byNick, users, NicknameKey(from), to);
      byNick := byNick - {NicknameKey(from)};
      if key in byNick {
        var stale := byNick[key];
        byNick := byNick - {key};
        ForgetKeeps(old(byNick), users, channels, casemapping, next, stale, "", {}, {});
        StaleMembers(users, channels, stale);
        channels := Without(channels, users[stale].channels, stale);
        users := users - {stale};
        assert {} - {stale} == {};
      } else {
        StaleNone(channels);
        assert users - {} == users;
      }
      RenameKeeps(users, channels, next, id, key, to);
      byNick := byNick[key := id];
      users := users[id := User(key, to, users[id].channels)];
    }

    /** `nickname` left the network. */
    method Quit(nickname: string)
      requires Consistent()
      modifies this`byNick, this`users, this`channels
      ensures Consistent()
      ensures
        var gone := if NicknameKey(nickname) in old(byNick) then {old(byNick)[NicknameKey(nickname)]} else {};
        && users == old(users) - gone && channels.Keys == old(channels).Keys
        && forall c :: c in channels ==> channels[c] == old(channels)[c].(users := old(channels)[c].users - gone)
    {
      hide KeysMatch, UpMatch, Housed, Issued, Without;
      if NicknameKey(nickname) in byNick {
        StaleMembers(users, channels, byNick[NicknameKey(nickname)]);
        Forget(byNick[NicknameKey(nickname)], "", {}, {});
      } else {
        StaleNone(channels);
        assert users - {} == users;
      }
      assert {} - (if NicknameKey(nickname) in old(byNick) then {old(byNick)[NicknameKey(nickname)]} else {}) == {};
    }

    /** Compares channel names with `mapping` from now on. Channels that fold
        alike under it become one; users and their ids stay. */
    method SetCasemapping(mapping: CaseMapping)
      requires Consistent()
      modifies this`casemapping, this`users, this`channels
      ensures Consistent() && casemapping == mapping
      ensures users.Keys == old(users).Keys
      ensures forall id :: id in users ==> users[id].key == old(users)[id].key && users[id].nick == old(users)[id].nick
      ensures forall c :: c in old(channels) ==> Fold(mapping, old(channels)[c].name) in channels
      ensures forall k :: k in channels ==>
                exists c ::
                  c in old(channels) && Fold(mapping, old(channels)[c].name) == k &&
                  channels[k].name == old(channels)[c].name
      ensures forall c, id :: c in old(channels) && id in old(channels)[c].users ==>
                id in MembersOf(channels, Fold(mapping, old(channels)[c].name))
      ensures forall k, id :: k in channels && id in channels[k].users ==>
                exists c ::
                  c in old(channels) && Fold(mapping, old(channels)[c].name) == k && id in old(channels)[c].users
    {
      hide NicksMatch, KeysMatch, DownMatch, UpMatch, Housed, Issued, Refolds, Refiled, Followed, Fold;
      ghost var before := channels;
      if casemapping == mapping {
        SameFiling(channels, mapping);
        return;
      }
      casemapping := mapping;
      var rest := channels;
      var moved: map<string, string> := map[];
      channels := map[];
      RefiledNone(before, mapping);
      assert before.Keys - rest.Keys == {};
      while rest.Keys != {}
        invariant rest.Keys <= before.Keys && forall c :: c in rest ==> rest[c] == before[c]
        invariant casemapping == mapping && users == old(users)
        invariant Refolds(before, before.Keys - rest.Keys, mapping, moved)
        invariant Refiled(before, moved, channels) && KeysMatch(channels, mapping)
        decreases rest.Keys
      {
        var c :| c in rest.Keys;
        KeyAt(old(channels), old(casemapping), c);
        moved := RefileOne(rest[c], c, moved, before, before.Keys - rest.Keys);
        assert before.Keys - rest.Keys + {c} == before.Keys - (rest.Keys - {c});
        rest := rest - {c};
      }
      assert before.Keys - rest.Keys == before.Keys;
      RefiledAll(before, mapping, moved, channels);
      FollowedTables(byNick, users, before, moved, next);
      FollowedLinks(users, before, moved, channels);
      FollowedUsers(users, moved);
      users := Followed(users, moved);
    }

    method RefileOne(members: Members, c: string, moved: map<string, string>, ghost before: Channels,
                     ghost done: set<string>)
      returns (moved': map<string, string>)
      requires Refolds(before, done, casemapping, moved) && Refiled(before, moved, channels) &&
               KeysMatch(channels, casemapping)
      requires c in before && c !in done && members == before[c] && members.key == c
      modifies this`channels
      ensures Refolds(before, done + {c}, casemapping, moved') && Refiled(before, moved', channels)
      ensures KeysMatch(channels, casemapping)
    {
      hide Refiled, KeysMatch, Merged;
      var key := Fold(casemapping, members.name);
      RefiledNext(before, moved, channels, c, key);
      MergedNamed(channels, casemapping, members);
      var merged := Merged(channels, key, members);
      moved' := moved[members.key := merged.key];
      channels := channels[key := merged];
    }

    // ---------- Who departs ----------

    /** The users in `channel` and in no other channel. */
    ghost function Alone(channel: string): set<UserId>
      requires Consistent()
      reads this
    {
      set id | id in MembersOf(channels, ChannelKey(channel)) && id in users &&
      !Elsewhere(users[id], ChannelKey(channel))
    }

    /** Those users' nicknames, as spelled, each once and in order. */
    method OnlyIn(channel: string) returns (only: seq<string>)
      requires Consistent()
      ensures Spelled(only, users, Alone(channel)) && Distinct(only) && InOrder(only)
    {
      hide NicksMatch, KeysMatch, UpMatch, Issued, Spelled, Elsewhere, Distinct, InOrder;
      NamesNone();
      var members := MembersOf(channels, ChannelKey(channel));
      var rest := members;
      only := [];
      SpelledNone(users);
      ghost var done: set<UserId> := {};
      while rest != {}
        invariant rest <= members && done == (members - rest) * Alone(channel)
        invariant Spelled(only, users, done) && Distinct(only)
      {
        var id :| id in rest;
        rest := rest - {id};
        if id in users {
          AloneByCount(users[id], ChannelKey(channel));
          if |users[id].channels| == 1 {
            SpelledOnce(byNick, users, only, done, id);
            SpelledNext(only, users, done, id);
            only := only + [users[id].nick];
            done := done + {id};
          }
        }
      }
      assert done == Alone(channel);
      var sorted := InNameOrder(only);
      SpelledSorted(only, sorted, users, done);
      SortedDistinct(only, sorted);
      return sorted;
    }

    /** Whether `nickname` is in a channel other than `except`. */
    predicate Shares(nickname: string, except: string)
      reads this
    {
      var k := NicknameKey(nickname);
      k in byNick && byNick[k] in users && exists c :: c in users[byNick[k]].channels && c != ChannelKey(except)
    }

    /** The nicknames we no longer share a channel with after `message` from
        `actor`. `ours` is our own nickname. */
    method Departed(message: Message, actor: string, ours: string) returns (names: seq<string>)
      requires Consistent()
      ensures DepartedSpec(message, actor, ours, names)
    {
      match message {
        case Quit =>
          return if Same(Rfc1459, actor, ours) then [] else [actor];
        case Part(channel) =>
          names := Left(channel, actor, ours);
        case Kick(channel, nickname) =>
          names := Left(channel, nickname, ours);
        case Other =>
          return [];
      }
    }

    ghost predicate DepartedSpec(message: Message, actor: string, ours: string, names: seq<string>)
      requires Consistent()
      reads this
    {
      match message
      case Quit => names == if Same(Rfc1459, actor, ours) then [] else [actor]
      case Part(channel) => LeftSpec(channel, actor, ours, names)
      case Kick(channel, nickname) => LeftSpec(channel, nickname, ours, names)
      case Other => names == []
    }

    ghost predicate LeftSpec(channel: string, leaving: string, ours: string, names: seq<string>)
      requires Consistent()
      reads this
    {
      if Same(Rfc1459, leaving, ours)
      then KeysOf(names) == (set id | id in Alone(channel) :: users[id].key) - {NicknameKey(ours)}
      else names == if Shares(leaving, channel) then [] else [leaving]
    }

    /** Whether the one who leaves is us or somebody recorded. */
    ghost predicate Recorded(message: Message, actor: string, ours: string)
      reads this
    {
      match message
      case Kick(_, nickname) => Same(Rfc1459, nickname, ours) || NicknameKey(nickname) in byNick
      case Other => true
      case _ => Same(Rfc1459, actor, ours) || NicknameKey(actor) in byNick
    }

    /** What `message` does to the index: when we leave, the channel goes; when
        another leaves, the next roster of the channel does not list them. */
    method Follow(message: Message, actor: string, ours: string, roster: seq<string>) returns (names: seq<string>)
      requires Consistent() && Recorded(message, actor, ours)
      requires message.Part? ==> NextRoster(message.channel, actor, ours, roster)
      requires message.Kick? ==> NextRoster(message.channel, message.nickname, ours, roster)
      modifies this`next, this`byNick, this`users, this`channels
      ensures Consistent()
      ensures KeysOf(names) == old(byNick).Keys - byNick.Keys - {NicknameKey(ours)}
    {
      hide KeysMatch, DownMatch, UpMatch, Housed, Issued, Fold;
      names := Departed(message, actor, ours);
      match message {
        case Quit =>
          Quit(actor);
          GoneKeys(old(byNick), old(users), byNick, users);
        case Part(channel) =>
          ApplyLeaving(channel, actor, ours, roster, names);
        case Kick(channel, nickname) =>
          ApplyLeaving(channel, nickname, ours, roster, names);
        case Other =>
      }
    }

    ghost predicate NextRoster(channel: string, leaving: string, ours: string, roster: seq<string>)
      requires Consistent()
      reads this
    {
      !Same(Rfc1459, leaving, ours) ==>
        ListedKeys(roster) ==
          (set id | id in MembersOf(channels, ChannelKey(channel)) :: users[id].key) - {NicknameKey(leaving)}
    }

    method ApplyLeaving(channel: string, leaving: string, ours: string, roster: seq<string>, ghost names: seq<string>)
      requires Consistent() && LeftSpec(channel, leaving, ours, names)
      requires Same(Rfc1459, leaving, ours) || NicknameKey(leaving) in byNick
      requires NextRoster(channel, leaving, ours, roster)
      modifies this`next, this`byNick, this`users, this`channels
      ensures Consistent()
      ensures KeysOf(names) == old(byNick).Keys - byNick.Keys - {NicknameKey(ours)}
    {
      hide KeysMatch, Issued, Fold, ListedKeys, Elsewhere, DownMatch, UpMatch, Housed;
      AllAlone(users, channels, ChannelKey(channel));
      OthersStay(users, channels, ChannelKey(channel));
      if Same(Rfc1459, leaving, ours) {
        RemoveChannel(channel);
      } else {
        SharesElsewhere(users[byNick[NicknameKey(leaving)]], ChannelKey(channel));
        ReplaceChannel(channel, roster);
      }
      GoneKeys(old(byNick), old(users), byNick, users);
    }

    method Left(channel: string, leaving: string, ours: string) returns (names: seq<string>)
      requires Consistent()
      ensures LeftSpec(channel, leaving, ours, names)
    {
      if Same(Rfc1459, leaving, ours) {
        var only := OnlyIn(channel);
        names := Filter(only, NotOurs(ours));
        ExceptKeys(ours, only, users, Alone(channel));
      } else {
        names := if Shares(leaving, channel) then [] else [leaving];
      }
    }
  }

  /** The nicknames gone are those of the users gone. */
  lemma GoneKeys(byNick0: Nicks, users0: Users, byNick: Nicks, users: Users)
    requires NicksMatch(byNick0, users0) && NicksMatch(byNick, users)
    requires forall id :: id in users0 && id in users ==> users[id].key == users0[id].key
    requires (forall id :: id in users ==> id in users0) ||
             forall k :: k in byNick0 && k in byNick ==> byNick[k] == byNick0[k]
    ensures byNick0.Keys - byNick.Keys == set id | id in users0 && id !in users :: users0[id].key
  {
  }

  lemma AllAlone(users: Users, channels: Channels, c: string)
    requires DownMatch(users, channels)
    ensures MembersOf(channels, c) <= users.Keys
  {
  }

  lemma OthersStay(users: Users, channels: Channels, c: string)
    requires UpMatch(users, channels, "", {}) && Housed(users, {})
    ensures forall id :: id in users && id !in MembersOf(channels, c) ==> Elsewhere(users[id], c)
  {
    forall id | id in users && id !in MembersOf(channels, c)
      ensures Elsewhere(users[id], c)
    {
      assert users[id].channels[0] in users[id].channels;
    }
  }

  lemma SharesElsewhere(user: User, c: string)
    ensures Elsewhere(user, c) <==> exists d :: d in user.channels && d != c
  {
  }

  datatype Message = Quit | Part(channel: string) | Kick(channel: string, nickname: string) | Other

  /** `names` are the nicknames of `ids`. */
  ghost predicate Spelled(names: seq<string>, users: Users, ids: set<UserId>) {
    ids <= users.Keys && forall n :: n in names <==> exists id :: id in ids && users[id].nick == n
  }

  lemma SpelledOnce(byNick: Nicks, users: Users, names: seq<string>, ids: set<UserId>, id: UserId)
    requires NicksMatch(byNick, users) && Spelled(names, users, ids) && id in users && id !in ids && Distinct(names)
    ensures Distinct(names + [users[id].nick])
  {
    AppendDistinct(names, users[id].nick);
  }

  lemma SpelledSorted(names: seq<string>, sorted: seq<string>, users: Users, ids: set<UserId>)
    requires Spelled(names, users, ids) && multiset(sorted) == multiset(names)
    ensures Spelled(sorted, users, ids)
  {
    SameElements(sorted, names);
  }

  lemma NamesNone()
    ensures Distinct<string>([])
  {
  }

  // ---------- Names in order ----------

  /** `a` is `b` or comes before it, character by character. */
  predicate AtMost(a: string, b: string) {
    a == [] || (b != [] && (a[0] < b[0] || (a[0] == b[0] && AtMost(a[1..], b[1..]))))
  }

  ghost predicate InOrder(names: seq<string>) {
    forall i, j :: 0 <= i < j < |names| ==> AtMost(names[i], names[j])
  }

  lemma {:induction false} AtMostOneWay(a: string, b: string)
    ensures AtMost(a, b) || AtMost(b, a)
  {
    if a != [] && b != [] && a[0] == b[0] {
      AtMostOneWay(a[1..], b[1..]);
    }
  }

  lemma {:induction false} AtMostAlong(a: string, b: string, c: string)
    requires AtMost(a, b) && AtMost(b, c)
    ensures AtMost(a, c)
  {
    if a != [] && a[0] == b[0] && b[0] == c[0] {
      AtMostAlong(a[1..], b[1..], c[1..]);
    }
  }

  function InNameOrder(names: seq<string>): (r: seq<string>)
    ensures InOrder(r) && multiset(r) == multiset(names)
  {
    if names == [] then []
    else
      var front, last := names[..|names| - 1], names[|names| - 1];
      assert names == front + [last];
      var r := InNameOrder(front);
      var at := PastLast(r, (x: string) => AtMost(x, last));
      InsertedInOrder(r, at, last);
      InsertedElements(r, at, last);
      InsertAt(r, at, last)
  }

  lemma InsertedInOrder(r: seq<string>, at: nat, x: string)
    requires InOrder(r) && at <= |r| && (at > 0 ==> AtMost(r[at - 1], x)) &&
             forall j :: at <= j < |r| ==> !AtMost(r[j], x)
    ensures InOrder(InsertAt(r, at, x))
  {
    hide AtMost;
    forall j | 0 <= j < at ensures AtMost(r[j], x) {
      if j < at - 1 {
        AtMostAlong(r[j], r[at - 1], x);
      }
    }
    forall j | at <= j < |r| ensures AtMost(x, r[j]) {
      AtMostOneWay(x, r[j]);
    }
  }

  lemma SpelledNone(users: Users)
    ensures Spelled([], users, {})
  {
  }

  lemma SpelledNext(names: seq<string>, users: Users, ids: set<UserId>, id: UserId)
    requires Spelled(names, users, ids) && id in users
    ensures Spelled(names + [users[id].nick], users, ids + {id})
  {
    var next := names + [users[id].nick];
    forall n ensures n in next <==> exists i :: i in ids + {id} && users[i].nick == n {
      if n in names {
        var i :| i in ids && users[i].nick == n;
        assert i in ids + {id};
      }
      if exists i :: i in ids + {id} && users[i].nick == n {
        var i :| i in ids + {id} && users[i].nick == n;
        assert i in ids ==> n in names;
        assert n == users[id].nick ==> next[|names|] == n;
      }
      assert users[id].nick == n ==> id in ids + {id};
    }
  }

  lemma AloneByCount(user: User, c: string)
    requires Distinct(user.channels) && c in user.channels
    ensures |user.channels| == 1 <==> !Elsewhere(user, c)
  {
    if |user.channels| == 1 {
      assert user.channels == [c];
    } else {
      assert user.channels[0] in user.channels && user.channels[1] in user.channels;
    }
  }

  ghost function KeysOf(names: seq<string>): set<string> {
    set n | n in names :: NicknameKey(n)
  }

  /** The names that are not ours. */
  function NotOurs(ours: string): string -> bool {
    (n: string) => !Same(Rfc1459, n, ours)
  }

  lemma ExceptKeys(ours: string, only: seq<string>, users: Users, ids: set<UserId>)
    requires Spelled(only, users, ids) && forall id :: id in users ==> users[id].key == NicknameKey(users[id].nick)
    ensures KeysOf(Filter(only, NotOurs(ours))) == (set id | id in ids :: users[id].key) - {NicknameKey(ours)}
  {
    hide Fold;
    forall id | id in ids && users[id].key != NicknameKey(ours)
      ensures users[id].key in KeysOf(Filter(only, NotOurs(ours)))
    {
      assert users[id].nick in Filter(only, NotOurs(ours));
    }
  }

  lemma SameFiling(channels: Channels, m: CaseMapping)
    requires KeysMatch(channels, m)
    ensures forall c :: c in channels ==> Fold(m, channels[c].name) == c
  {
  }

  lemma KeyAt(channels: Channels, m: CaseMapping, c: string)
    requires KeysMatch(channels, m) && c in channels
    ensures channels[c].key == c
  {
  }

  lemma RefiledNone(was: Channels, m: CaseMapping)
    ensures Refolds(was, {}, m, map[]) && Refiled(was, map[], map[]) && KeysMatch(map[], m)
  {
  }

  lemma FollowedUsers(users: Users, moved: map<string, string>)
    ensures Followed(users, moved).Keys == users.Keys
    ensures forall id ::
              id in users ==>
                Followed(users, moved)[id].key == users[id].key && Followed(users, moved)[id].nick == users[id].nick
  {
  }

  lemma RefiledAll(was: Channels, m: CaseMapping, moved: map<string, string>, channels: Channels)
    requires Refolds(was, was.Keys, m, moved) && Refiled(was, moved, channels)
    ensures moved.Keys == was.Keys
    ensures forall c :: c in was ==> Fold(m, was[c].name) in channels
    ensures forall k ::
              k in channels ==> exists c :: c in was && Fold(m, was[c].name) == k && channels[k].name == was[c].name
    ensures forall c, id :: c in was && id in was[c].users ==> id in MembersOf(channels, Fold(m, was[c].name))
    ensures forall k, id :: k in channels && id in channels[k].users ==>
              exists c :: c in was && Fold(m, was[c].name) == k && id in was[c].users
  {
    hide Fold;
    forall k | k in channels
      ensures exists c :: c in was && Fold(m, was[c].name) == k && channels[k].name == was[c].name {
      assert NamedLike(was, moved, k, channels[k].name);
    }
    forall k, id | k in channels && id in channels[k].users
      ensures exists c :: c in was && Fold(m, was[c].name) == k && id in was[c].users
    {
      var c :| c in moved && moved[c] == k && id in was[c].users;
    }
  }

  lemma StaleMembers(users: Users, channels: Channels, id: UserId)
    requires DownMatch(users, channels) && id in users
    ensures Without(channels, users[id].channels, id).Keys == channels.Keys
    ensures forall c :: c in channels ==>
              Without(channels, users[id].channels, id)[c] == channels[c].(users := channels[c].users - {id})
  {
  }

  lemma StaleNone(channels: Channels)
    ensures forall c :: c in channels ==> channels[c] == channels[c].(users := channels[c].users - {})
  {
  }

  /** The nickname tables after a rename, and what they hold before it. */
  lemma NicksRenamed(byNick: Nicks, users: Users, from: string, to: string)
    requires NicksMatch(byNick, users) && from in byNick
    ensures byNick[from] in users
    ensures
      var (id, key) := (byNick[from], NicknameKey(to));
      var stale := if key in byNick && key != from then {byNick[key]} else {};
      && stale <= users.Keys && id !in stale && (key in byNick ==> users[byNick[key]].key == key)
      && NicksMatch((byNick - {from})[key := id], (users - stale)[id := User(key, to, users[id].channels)])
      && (byNick - {from} - {key})[key := id] == (byNick - {from})[key := id]
  {
  }

  lemma RenameKeeps(users: Users, channels: Channels, next: nat, id: UserId, key: string, nick: string)
    requires id in users && DownMatch(users, channels) && UpMatch(users, channels, "", {})
    requires Housed(users, {}) && Issued(users, next)
    ensures
      var u' := users[id := User(key, nick, users[id].channels)];
      DownMatch(u', channels) && UpMatch(u', channels, "", {}) && Housed(u', {}) && Issued(u', next)
  {
  }

  /** The user is in a channel other than `c`. */
  ghost predicate Elsewhere(user: User, c: string) {
    exists d :: d in user.channels && d != c
  }

  lemma ExceptEmpties(c: string, user: User)
    ensures Except(user.channels, c) != [] <==> Elsewhere(user, c)
  {
    if Except(user.channels, c) != [] {
      var d := Except(user.channels, c)[0];
      assert d in Except(user.channels, c);
    }
  }

  /** Users of both have the same key; the others' ids are new. */
  ghost predicate Continues(before: Users, after: Users, next: nat) {
    (forall id :: id in before && id in after ==> after[id].key == before[id].key) &&
    forall id :: id in after && id !in before ==> next <= id
  }

  lemma NicksKept(nicks: Nicks, enrolled: Users, byNick: Nicks, users: Users, present: set<UserId>, keys: set<string>)
    requires NicksMatch(nicks, enrolled) && NicksMatch(byNick, users) && keys <= nicks.Keys
    requires forall id :: id in present <==> id in enrolled && enrolled[id].key in keys
    requires forall id :: id in present ==> id in users
    requires forall id :: id in users ==> id in enrolled && users[id].key == enrolled[id].key
    ensures keys <= byNick.Keys
    ensures forall k :: k in nicks && k in byNick ==> byNick[k] == nicks[k]
  {
    forall k | k in keys
      ensures k in byNick
    {
      assert nicks[k] in present;
    }
  }

  lemma ReplacedUsers(before: Users, enrolled: Users, channels: Channels, next: nat, c: string, present: set<UserId>,
                      keys: set<string>)
    requires DownMatch(before, channels) && UpMatch(before, channels, "", {}) && Housed(before, {})
    requires Extends(before, enrolled, next)
    requires forall id :: id in present <==> id in enrolled && enrolled[id].key in keys
    ensures
      var after := AfterLeaving(Entered(enrolled, present, c), MembersOf(channels, c) - present, c);
      && Continues(before, after, next)
      && (forall id :: id in before ==> (id in after <==> before[id].key in keys || Elsewhere(before[id], c)))
      && (forall id :: id in present <==> id in after && after[id].key in keys)
      && (forall id :: id in present ==> id in after)
      && (forall id ::
            id in after ==> id in enrolled && after[id].key == enrolled[id].key && after[id].nick == enrolled[id].nick)
  {
    var after := AfterLeaving(Entered(enrolled, present, c), MembersOf(channels, c) - present, c);
    forall id | id in before
      ensures id in after <==> before[id].key in keys || Elsewhere(before[id], c)
    {
      ExceptEmpties(c, before[id]);
      if id !in present && id !in MembersOf(channels, c) {
        assert before[id].channels[0] in before[id].channels;
      }
    }
  }

  lemma RespelledStill(before: Users, members: seq<string>, enrolled: Users, after: Users)
    requires Respelled(before, members, enrolled)
    requires forall id ::
               id in after ==>
                 id in enrolled && after[id].key == enrolled[id].key && after[id].nick == enrolled[id].nick
    ensures Respelled(before, members, after)
  {
    hide Spelling;
  }

  lemma NextUnused(users: Users, next: nat)
    requires Issued(users, next)
    ensures next !in users
  {
  }

  lemma RosterOfNone(users: Users)
    ensures ListedKeys([]) == {}
  {
  }

  lemma ExtendsSelf(users: Users, next: nat)
    ensures Extends(users, users, next)
  {
  }

  lemma ExtendsTwice(a: Users, b: Users, c: Users, first: nat, second: nat)
    requires Extends(a, b, first) && Extends(b, c, second) && first <= second
    ensures Extends(a, c, first)
  {
  }

  lemma ListedNext(earlier: Nicks, byNick: Nicks, before: Users, users: Users, next: nat, present: set<UserId>,
                   keys: set<string>, nickname: string)
    requires NicksMatch(byNick, users) && NicksMatch(earlier, before) && Extends(before, users, next)
    requires keys <= earlier.Keys && NicknameKey(nickname) in byNick
    requires forall id :: id in present <==> id in before && before[id].key in keys
    ensures forall id :: id in present + {byNick[NicknameKey(nickname)]} <==>
              id in users && users[id].key in keys + {NicknameKey(nickname)}
  {
  }

  lemma AfterLeavingNone(users: Users, left: string)
    ensures AfterLeaving(users, {}, left) == users
  {
  }

  lemma AfterLeavingStep(users: Users, ids: set<UserId>, left: string, id: UserId)
    requires id !in ids
    ensures AfterLeaving(AfterLeaving(users, ids, left), {id}, left) == AfterLeaving(users, ids + {id}, left)
  {
  }

  lemma WithoutNothing(channels: Channels, id: UserId)
    ensures Without(channels, [], id) == channels
  {
  }

  lemma IssuedAlso(users: Users, next: nat, id: UserId, rest: seq<string>)
    requires Issued(users, next) && id in users
    ensures Issued(users[id := users[id].(channels := rest)], next)
  {
  }

  lemma Absent(users: Users, channels: Channels, id: UserId, left: string, leaving: set<UserId>, arriving: set<UserId>)
    requires id !in users && UpMatch(users, channels, left, leaving) && Housed(users, arriving)
    ensures UpMatch(users, channels, left, leaving - {id}) && Housed(users, arriving - {id})
    ensures users - {id} == users
  {
  }
}
