/** The gateway helpers of `JrlpCommand` with the HTTP exchange abstracted away:
    a reply is either a transport failure or a decoded JSON body. */
module Gateway {
  import opened Wrappers

  /** A JSON object field as `dict.get` sees it: key absent, `null`, or a string. */
  datatype Field = Missing | Null | Text(s: string)

  /** The placeholder the plugin uses for names it cannot find. */
  const Unknown: string := "未知"

  /** Python truthiness of a field's value: only a non-empty string is true. */
  predicate Truthy(f: Field)
  {
    f.Text? && f.s != ""
  }

  /** `d.get(key, default)`: the default replaces an absent key, but not a `null`. */
  function GetOr(f: Field, default: string): (r: Field)
    ensures r != Missing
    ensures f.Missing? ==> r == Text(default)
    ensures !f.Missing? ==> r == f
  {
    if f.Missing? then Text(default) else f
  }

  /** A member object as returned by `get_group_member_list` and `get_group_member_info`;
      `userId` is `str(m.get("user_id"))`. */
  datatype MemberInfo = MemberInfo(userId: string, card: Field, nickname: Field)

  /** A group object as returned by `get_group_info`. */
  datatype GroupInfo = GroupInfo(groupName: Field)

  /** What `_make_request` yields: a transport error message, or a JSON body whose
      `data` field is `None` when absent or `null`. */
  datatype Reply<+T> = NetError(msg: string) | Body(data: Option<T>)

  /** `card or nickname-or-"未知"`: the display name used for members. */
  function DisplayName(m: MemberInfo): (r: Field)
    ensures r != Missing
    ensures Truthy(m.card) ==> r == m.card
    ensures !Truthy(m.card) && m.nickname.Missing? ==> r == Text(Unknown)
    ensures !Truthy(m.card) && !m.nickname.Missing? ==> r == m.nickname
  {
    if Truthy(m.card) then m.card else GetOr(m.nickname, Unknown)
  }

  /** The placeholder appears only when both fields gave nothing better: when the card
      is falsy and the nickname key is absent, unless one of them already reads "未知". */
  lemma UnknownOnlyWithoutNickname(m: MemberInfo)
    requires DisplayName(m) == Text(Unknown)
    requires m.card != Text(Unknown) && m.nickname != Text(Unknown)
    ensures !Truthy(m.card) && m.nickname.Missing?
  {
  }

  /** The shared shape of the three `get_*` helpers: a transport failure passes its
      message through, a body without `data` fails with `emptyMsg`, and otherwise
      the `data` value is the result. */
  function Unwrap<T>(reply: Reply<T>, emptyMsg: string): (r: Result<T>)
    ensures r.Success? <==> reply.Body? && reply.data.Some?
    ensures r.Success? ==> r.value == reply.data.value
    ensures reply.NetError? ==> r == Failure(reply.msg)
    ensures reply.Body? && reply.data.None? ==> r == Failure(emptyMsg)
  {
    match reply
    case NetError(msg) => Failure(msg)
    case Body(data) =>
      match data
      case None => Failure(emptyMsg)
      case Some(d) => Success(d)
  }

  const RosterEmptyMsg: string := "获取群成员列表失败：返回数据为空"
  const MemberEmptyMsg: string := "获取群成员信息失败：返回数据为空"
  const GroupEmptyMsg: string := "获取群信息失败：返回数据为空"

  /** `get_group_member_list`. An empty list is a success. */
  function GetGroupMemberList(reply: Reply<seq<MemberInfo>>): (r: Result<seq<MemberInfo>>)
    ensures r.Success? <==> reply.Body? && reply.data.Some?
    ensures r.Success? ==> r.value == reply.data.value
    ensures reply.NetError? ==> r == Failure(reply.msg)
    ensures reply == Body(None) ==> r == Failure(RosterEmptyMsg)
    ensures reply == Body(Some([])) ==> r == Success([])
  {
    Unwrap(reply, RosterEmptyMsg)
  }

  /** `get_member_info`. */
  function GetMemberInfo(reply: Reply<MemberInfo>): (r: Result<MemberInfo>)
    ensures r.Success? <==> reply.Body? && reply.data.Some?
    ensures r.Success? ==> r.value == reply.data.value
    ensures reply.NetError? ==> r == Failure(reply.msg)
    ensures reply == Body(None) ==> r == Failure(MemberEmptyMsg)
  {
    Unwrap(reply, MemberEmptyMsg)
  }

  /** `get_group_info`. */
  function GetGroupInfo(reply: Reply<GroupInfo>): (r: Result<GroupInfo>)
    ensures r.Success? <==> reply.Body? && reply.data.Some?
    ensures r.Success? ==> r.value == reply.data.value
    ensures reply.NetError? ==> r == Failure(reply.msg)
    ensures reply == Body(None) ==> r == Failure(GroupEmptyMsg)
  {
    Unwrap(reply, GroupEmptyMsg)
  }

  /** `send_group_message`: unlike the `get_*` helpers it does not look at `data`,
      so any body at all counts as sent. */
  function SendGroupMessage(reply: Reply<()>): (r: Result<()>)
    ensures r.Success? <==> reply.Body?
    ensures reply.NetError? ==> r == Failure(reply.msg)
  {
    match reply
    case NetError(msg) => Failure(msg)
    case Body(_) => Success(())
  }
}
