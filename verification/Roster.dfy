// The group record of group_ops.py as a value, and what each operation on it
// does. Signatures are symbolic: signing names the key and the payload, and a
// signature verifies exactly against those.
module Roster {
  import opened Basics
  import opened Text
  import opened MemberOrder

  datatype Payload = Payload(groupName: string, owner: string, version: int, members: seq<Member>)

  datatype Signature = Signature(signer: nat, payload: Payload)

  datatype Invite = Invite(token: string, redeemed: string)

  // An empty string or None stands for a missing entry, as `or ""` reads it.
  datatype Group = Group(
    name: string,
    my: string,
    myName: string,
    owner: string,
    version: int,
    members: seq<Member>,
    joinToken: Option<string>,
    invites: seq<Invite>,
    secret: Option<nat>,
    pubkey: Option<nat>,
    signature: Option<Signature>)

  datatype Error =
    | NotOwner | UnknownToken | TokenTaken | BadName | BadAddress | NotAMember
    | EmptyGroupName | WrongOwner | WrongKey | BadSignature | Unsigned | OwnerMissing

  // ---------------------------------------------------------------- members

  predicate B32Char(c: char) {
    'a' <= c <= 'z' || '2' <= c <= '7'
  }

  predicate IsB32(s: string) {
    |s| == 60 && (forall i :: 0 <= i < 52 ==> B32Char(s[i])) && s[52..] == ".b32.i2p"
  }

  // is_valid_b32_address
  predicate ValidAddress(s: string) {
    IsB32(Lower(Trim(s)))
  }

  function UpTo(s: string, sep: char): string {
    if sep in s then s[..IndexOf(s, sep)] else s
  }

  function Take(s: string, n: nat): string {
    if |s| <= n then s else s[..n]
  }

  function ShortB32(s: string): string {
    if s == "" then "unknown" else Take(UpTo(s, '.'), 8)
  }

  function Normalize(m: Member): Member {
    var name := Take(Trim(m.name), 32);
    Member(if name == "" then "member-" + ShortB32(m.b32) else name, Lower(Trim(m.b32)))
  }

  function NormalizeValid(list: seq<Member>): seq<Member> {
    if list == [] then []
    else if ValidAddress(list[0].b32) then [Normalize(list[0])] + NormalizeValid(list[1..])
    else NormalizeValid(list[1..])
  }

  // validate_group_display_name
  predicate ValidName(name: string) {
    var t := Trim(name);
    t != "" && |t| <= 32 && forall c :: c in t ==> 32 <= c as int && c as int != 127
  }

  function SelfName(g: Group): string {
    if Trim(g.myName) != "" then Trim(g.myName) else "member-" + ShortB32(g.my)
  }

  predicate IsAdmin(g: Group) {
    g.my != "" && g.owner != "" && Lower(g.my) == Lower(g.owner)
  }

  function OrOne(version: int): int {
    if version == 0 then 1 else version
  }

  function Deduped(list: seq<Member>, seen: set<string>): seq<Member> {
    if list == [] then [] else
      var n := Normalize(list[0]);
      if ValidAddress(n.b32) && Lower(n.b32) !in seen
      then [n] + Deduped(list[1..], seen + {Lower(n.b32)})
      else Deduped(list[1..], seen)
  }

  predicate HasAddress(list: seq<Member>, addr: string) {
    exists m :: m in list && Lower(m.b32) == addr
  }

  function WithOwner(g: Group, list: seq<Member>): seq<Member> {
    var my, owner := Lower(Trim(g.my)), Lower(Trim(g.owner));
    if my != "" && owner != "" && my == owner && !HasAddress(list, owner)
    then list + [Member(SelfName(g), owner)] else list
  }

  // canonical_group_members
  function Canonical(g: Group): seq<Member> {
    Sort(WithOwner(g, Deduped(g.members, {})))
  }

  // --------------------------------------------------------------- signing

  function PayloadOf(g: Group): Payload {
    Payload(g.name, g.owner, OrOne(g.version), Canonical(g))
  }

  lemma CanonicalNeedsNoKey(g: Group, h: Group)
    requires g.members == h.members && g.my == h.my && g.myName == h.myName && g.owner == h.owner
    ensures Canonical(g) == Canonical(h)
  {
    hide Lower, Trim, Sort, Deduped;
  }

  // sign_group_roster_if_admin; the spare key is used if none is stored.
  function SignIfAdmin(g: Group, spare: nat): Group {
    if !IsAdmin(g) then g else
      var key := if g.secret.Some? && g.pubkey.Some? then g.secret.value else spare;
      g.(secret := Some(key), pubkey := Some(key), signature := Some(Signature(key, PayloadOf(g))))
  }

  // verify_group_roster_signature
  predicate Verifies(groupName: string, owner: string, version: int, members: seq<Member>,
                     pubkey: Option<nat>, signature: Option<Signature>)
  {
    && pubkey.Some? && signature.Some?
    && signature.value.signer == pubkey.value
    && signature.value.payload == Payload(groupName, owner, version, Sort(NormalizeValid(members)))
  }

  // ----------------------------------------------------------- merge member

  // The first position holding an address, or the length of the list.
  function Position(list: seq<Member>, addr: string): (i: nat)
    ensures i <= |list|
    ensures i < |list| ==> Lower(list[i].b32) == addr
    ensures forall j :: 0 <= j < i ==> Lower(list[j].b32) != addr
  {
    if list == [] then 0
    else if Lower(list[0].b32) == addr then 0
    else 1 + Position(list[1..], addr)
  }

  // merge_group_member on the member list of a record whose own address is my.
  function MergeMember(my: string, list: seq<Member>, m: Member): seq<Member> {
    var n := Normalize(m);
    if !ValidAddress(n.b32) || (my != "" && Lower(n.b32) == Lower(my)) then list else
      var i := Position(list, Lower(n.b32));
      if i == |list| then Sort(list + [n]) else list[i := n]
  }

  function MergeMembers(my: string, list: seq<Member>, incoming: seq<Member>): seq<Member>
    decreases |incoming|
  {
    if incoming == [] then list
    else MergeMembers(my, MergeMember(my, list, incoming[0]), incoming[1..])
  }

  // ------------------------------------------------------------- owner side

  function TokenPosition(invites: seq<Invite>, token: string): (i: nat)
    ensures i <= |invites|
    ensures i < |invites| ==> invites[i].token == token
  {
    if invites == [] then 0
    else if invites[0].token == token then 0
    else 1 + TokenPosition(invites[1..], token)
  }

  // A changed member list gets the next version.
  function WithMembers(g: Group, members: seq<Member>): Group {
    if members == g.members then g else g.(members := members, version := OrOne(g.version) + 1)
  }

  // redeem_group_invite_token
  function Redeem(g: Group, token: string, m: Member, spare: nat): Result<Group, Error> {
    if !IsAdmin(g) then Err(NotOwner) else
      var i := TokenPosition(g.invites, token);
      if i == |g.invites| then Err(UnknownToken)
      else if !ValidName(m.name) then Err(BadName)
      else
        var n := Normalize(m);
        if g.invites[i].redeemed != "" && Lower(g.invites[i].redeemed) != Lower(n.b32) then Err(TokenTaken)
        else
          var g1 := g.(invites := g.invites[i := g.invites[i].(redeemed := n.b32)]);
          Ok(SignIfAdmin(WithMembers(g1, MergeMember(g1.my, g1.members, n)), spare))
  }

  // apply_group_member_rename
  function Rename(g: Group, b32: string, name: string, spare: nat): Result<Group, Error> {
    if !ValidName(name) then Err(BadName)
    else if !ValidAddress(b32) then Err(BadAddress)
    else
      var i := Position(g.members, Lower(Trim(b32)));
      if i == |g.members| then Err(NotAMember)
      else if g.members[i].name == Trim(name) then Ok(g)
      else
        var renamed := g.(members := g.members[i := g.members[i].(name := Trim(name))], version := OrOne(g.version) + 1);
        Ok(SignIfAdmin(renamed, spare))
  }

  function Without(list: seq<Member>, addr: string): seq<Member> {
    if list == [] then []
    else if Lower(list[0].b32) == addr then Without(list[1..], addr)
    else [list[0]] + Without(list[1..], addr)
  }

  // remove_group_member up to its awaits: the list that will remain. Closing the
  // member's stream comes next, and meanwhile anything may happen to the record.
  function StartRemove(g: Group, b32: string): Result<seq<Member>, Error> {
    var addr := Lower(Trim(b32));
    if !IsAdmin(g) then Err(NotOwner)
    else if addr == "" || addr == Lower(g.my) || addr == Lower(g.owner) then Err(BadAddress)
    else if |Without(g.members, addr)| == |g.members| then Err(NotAMember)
    else Ok(Without(g.members, addr))
  }

  // And after them.
  function FinishRemove(g: Group, remaining: seq<Member>, spare: nat): Group {
    SignIfAdmin(g.(members := remaining, version := OrOne(g.version) + 1), spare)
  }

  // issue_group_invite, as far as it changes the record
  function Issue(g: Group, token: string, spare: nat): Result<Group, Error> {
    if !IsAdmin(g) then Err(NotOwner)
    else
      var signed := SignIfAdmin(g, spare);
      Ok(signed.(invites := signed.invites + [Invite(token, "")]))
  }

  // rename_in_group by the owner
  function SetOwnName(g: Group, name: string, spare: nat): Result<Group, Error> {
    if !ValidName(name) then Err(BadName) else Ok(SignIfAdmin(g.(myName := Trim(name)), spare))
  }

  // ------------------------------------------------------------ roster sync

  datatype RosterSync = RosterSync(
    groupName: string, owner: string, version: int, members: seq<Member>,
    pubkey: Option<nat>, signature: Option<Signature>)

  // roster_sync_from_meta
  function SyncOf(g: Group): Result<RosterSync, Error> {
    if g.owner == "" || g.pubkey.None? || g.signature.None? then Err(Unsigned)
    else Ok(RosterSync(g.name, g.owner, OrOne(g.version), Canonical(g), g.pubkey, g.signature))
  }

  // What merge_group_roster_sync checks of the message alone.
  predicate Genuine(r: RosterSync) {
    && Trim(r.groupName) != ""
    && ValidAddress(Lower(r.owner))
    && Verifies(r.groupName, Lower(r.owner), OrOne(r.version), NormalizeValid(r.members), r.pubkey, r.signature)
  }

  // What it checks against the record.
  predicate Pinned(g: Group, r: RosterSync) {
    && (g.owner != "" ==> Lower(g.owner) == Lower(r.owner))
    && (g.pubkey.Some? ==> g.pubkey == r.pubkey)
  }

  predicate SelfRemoved(g: Group, r: RosterSync) {
    g.my != "" && Lower(g.my) != Lower(r.owner) && !HasAddress(NormalizeValid(r.members), Lower(g.my))
  }

  function Adopt(g: Group, r: RosterSync): Group {
    g.(name := r.groupName, owner := Lower(r.owner), version := OrOne(r.version),
    members := if SelfRemoved(g, r) then [] else MergeMembers(g.my, [], NormalizeValid(r.members)),
    joinToken := if SelfRemoved(g, r) then None else g.joinToken,
    pubkey := r.pubkey, signature := r.signature)
  }

  // merge_group_roster_sync
  function MergeSync(g: Group, r: RosterSync): Result<Group, Error> {
    if Trim(r.groupName) == "" then Err(EmptyGroupName)
    else if !ValidAddress(Lower(r.owner)) then Err(BadAddress)
    else if g.owner != "" && Lower(g.owner) != Lower(r.owner) then Err(WrongOwner)
    else if g.pubkey.Some? && g.pubkey != r.pubkey then Err(WrongKey)
    else if !Genuine(r) then Err(BadSignature)
    else if OrOne(r.version) > OrOne(g.version) then Ok(Adopt(g, r))
    else Ok(g)
  }

  // ----------------------------------------------------------------- invite

  datatype GroupInvite = GroupInvite(
    groupName: string, inviterName: string, inviter: string, owner: string, token: string, version: int,
    members: seq<Member>, pubkey: Option<nat>, signature: Option<Signature>)

  // group_invite_from_meta
  function InviteOf(g: Group, token: string): GroupInvite {
    GroupInvite(g.name, SelfName(g), g.my, if g.owner == "" then g.my else g.owner, token, OrOne(g.version),
      g.members, g.pubkey, g.signature)
  }

  function InviteMembers(i: GroupInvite): seq<Member> {
    var name := if i.inviterName == "" then "member-" + ShortB32(i.inviter) else i.inviterName;
    NormalizeValid([Member(name, i.inviter)] + i.members)
  }

  // merge_group_invite into a record that has no signing key yet.
  function MergeInvite(g: Group, i: GroupInvite): Result<Group, Error>
    requires g.pubkey.None?
  {
    var owner := Lower(if i.owner == "" then i.inviter else i.owner);
    var incoming := InviteMembers(i);
    if Trim(i.groupName) == "" then Err(EmptyGroupName)
    else if !ValidAddress(i.inviter) || !ValidAddress(owner) then Err(BadAddress)
    else if i.pubkey.Some? && i.signature.Some? && !HasAddress(incoming, owner) then Err(OwnerMissing)
    else if i.pubkey.Some? && i.signature.Some?
         && !Verifies(i.groupName, owner, OrOne(i.version), incoming, i.pubkey, i.signature) then Err(BadSignature)
    else
      var signed := i.pubkey.Some? && i.signature.Some?;
      var start := if OrOne(i.version) > OrOne(g.version) then [] else g.members;
      Ok(g.(name := i.groupName, owner := owner,
      members := MergeMembers(g.my, start, incoming),
      version := Max(OrOne(g.version), OrOne(i.version)),
      joinToken := if i.token != "" then Some(i.token) else g.joinToken,
      pubkey := if signed then i.pubkey else None,
      signature := if signed then i.signature else g.signature))
  }
}
