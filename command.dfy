/** The draw decision of `JrlpCommand.execute`: a group member asks for a "daily wife",
    gets the one already recorded for today, or draws one from the group roster. */
module Command {
  import opened Wrappers
  import opened Store
  import opened Gateway

  /** The chat stream the command arrives on; any stream type other than "group" is `OtherChat`.
      `userId` is `str(chat_stream.user_info.user_id)`. */
  datatype ChatContext = GroupChat(userId: string, groupId: string) | OtherChat(userId: string)

  /** The `(success, message, intercept)` triple `execute` returns. */
  datatype CommandResult = CommandResult(ok: bool, msg: string, intercept: bool)

  /** The content of a reply, without its segment layout: who is mentioned and which wife it names. */
  datatype Message =
    | AlreadyHad(mention: string, wifeId: string, wifeName: Field)
    | Drew(mention: string, wifeId: string, wifeName: Field)

  /** One request to the gateway, in the order `execute` makes them. */
  datatype Call =
    | FetchMemberInfo(group: string, user: string)
    | FetchRoster(group: string)
    | FetchGroupInfo(group: string)
    | SendMessage(group: string, message: Message)

  /** The contents of the info log line written after a new draw. */
  datatype DrawLog = DrawLog(userName: Field, userId: string, groupName: Field, groupId: string,
                             wifeName: Field, wifeId: string)

  const NotGroupMsg: string := "该命令仅支持群聊环境"
  const NoCandidatesMsg: string := "找不到可用的群成员"
  const InfoFailedPrefix: string := "获取信息失败: "
  const SendFailedPrefix: string := "发送消息失败: "
  const RosterFailedPrefix: string := "获取群成员列表失败: "
  const ReturnedMsg: string := "已返回今日老婆"
  const DoneMsg: string := "执行成功"

  /** The truthiness test `if existing_wife:` — a stored empty string counts as no wife. */
  predicate HasWife(existing: Option<string>)
  {
    existing.Some? && existing.value != ""
  }

  /** `[m for m in member_list if str(m.get("user_id")) != user_id]`. */
  function Candidates(roster: seq<MemberInfo>, userId: string): (r: seq<MemberInfo>)
    ensures |r| <= |roster|
    ensures forall m :: m in r ==> m in roster && m.userId != userId
  {
    if roster == [] then []
    else (if roster[0].userId != userId then [roster[0]] else []) + Candidates(roster[1..], userId)
  }

  /** Every roster member other than the requester is a candidate. */
  lemma {:induction false} CandidatesComplete(roster: seq<MemberInfo>, userId: string, m: MemberInfo)
    requires m in roster && m.userId != userId
    ensures m in Candidates(roster, userId)
  {
    if roster[0] != m {
      CandidatesComplete(roster[1..], userId, m);
    }
  }

  /** The filter keeps roster order: it distributes over concatenation. */
  lemma {:induction false} CandidatesConcat(a: seq<MemberInfo>, b: seq<MemberInfo>, userId: string)
    ensures Candidates(a + b, userId) == Candidates(a, userId) + Candidates(b, userId)
  {
    if a == [] {
      assert a + b == b;
    } else {
      assert (a + b)[1..] == a[1..] + b;
      CandidatesConcat(a[1..], b, userId);
    }
  }

  /** A roster without the requester is kept whole, in order. */
  lemma {:induction false} CandidatesWithoutRequester(roster: seq<MemberInfo>, userId: string)
    requires forall i :: 0 <= i < |roster| ==> roster[i].userId != userId
    ensures Candidates(roster, userId) == roster
  {
    if roster != [] {
      CandidatesWithoutRequester(roster[1..], userId);
    }
  }

  /** A roster holding only the requester (or nobody) leaves no candidate. */
  lemma {:induction false} CandidatesOnlyRequester(roster: seq<MemberInfo>, userId: string)
    requires forall i :: 0 <= i < |roster| ==> roster[i].userId == userId
    ensures Candidates(roster, userId) == []
  {
    if roster != [] {
      CandidatesOnlyRequester(roster[1..], userId);
    }
  }

  /** Position of the first roster entry that is the requester, if any. */
  function RequesterIndex(roster: seq<MemberInfo>, userId: string): (r: Option<nat>)
    ensures r.None? <==> forall i :: 0 <= i < |roster| ==> roster[i].userId != userId
    ensures r.Some? ==> r.value < |roster| && roster[r.value].userId == userId
    ensures r.Some? ==> forall j :: 0 <= j < r.value ==> roster[j].userId != userId
  {
    if roster == [] then None
    else if roster[0].userId == userId then Some(0)
    else
      match RequesterIndex(roster[1..], userId)
      case None => None
      case Some(k) => Some(k + 1)
  }

  /** The requester's display name for the log: that of the first roster entry that is
      the requester, or "未知" when the requester is not on the roster. */
  function RequesterNameOf(roster: seq<MemberInfo>, userId: string): (r: Field)
    ensures (forall i :: 0 <= i < |roster| ==> roster[i].userId != userId) ==> r == Text(Unknown)
    ensures forall i ::
              (0 <= i < |roster| && roster[i].userId == userId &&
               forall j :: 0 <= j < i ==> roster[j].userId != userId) ==> r == DisplayName(roster[i])
  {
    match RequesterIndex(roster, userId)
    case None => Text(Unknown)
    case Some(k) => DisplayName(roster[k])
  }

  /** The `for ... break` loop at the log step, which computes RequesterNameOf. */
  method RequesterName(roster: seq<MemberInfo>, userId: string) returns (name: Field)
    ensures name == RequesterNameOf(roster, userId)
    ensures (forall i :: 0 <= i < |roster| ==> roster[i].userId != userId) ==> name == Text(Unknown)
    ensures forall i ::
              (0 <= i < |roster| && roster[i].userId == userId &&
               forall j :: 0 <= j < i ==> roster[j].userId != userId) ==> name == DisplayName(roster[i])
  {
    name := Text(Unknown);
    for i := 0 to |roster|
      invariant forall j :: 0 <= j < i ==> roster[j].userId != userId
      invariant name == Text(Unknown)
    {
      if roster[i].userId == userId {
        name := DisplayName(roster[i]);
        return;
      }
    }
  }

  /** The group name for the log: "未知" when the group-info request fails, otherwise
      `group_info.get("group_name", "未知")`. */
  function GroupNameOf(groupInfoReply: Reply<GroupInfo>): (r: Field)
    ensures r != Missing
    ensures GetGroupInfo(groupInfoReply).Failure? ==> r == Text(Unknown)
    ensures groupInfoReply == Body(Some(GroupInfo(Missing))) ==> r == Text(Unknown)
    ensures GetGroupInfo(groupInfoReply).Success? && !GetGroupInfo(groupInfoReply).value.groupName.Missing? ==>
              r == GetGroupInfo(groupInfoReply).value.groupName
  {
    match GetGroupInfo(groupInfoReply)
    case Failure(_) => Text(Unknown)
    case Success(info) => GetOr(info.groupName, Unknown)
  }

  /** What `random.choice` may return, as an index: any position of a non-empty candidate list. */
  predicate PickInRange(rosterReply: Reply<seq<MemberInfo>>, userId: string, pick: nat)
  {
    match GetGroupMemberList(rosterReply)
    case Failure(_) => true
    case Success(members) => Candidates(members, userId) == [] || pick < |Candidates(members, userId)|
  }

  /** What the "already drawn" half of `execute` does: one member-info request for the
      recorded wife, then, if it succeeded, one reply naming her; nothing else. */
  ghost predicate RecordedWifeReply(userId: string, groupId: string, wife: string,
                                    wifeInfoReply: Reply<MemberInfo>, sendReply: Reply<()>,
                                    res: CommandResult, calls: seq<Call>)
  {
    && res.intercept
    && (GetMemberInfo(wifeInfoReply).Failure? ==>
          res == CommandResult(false, InfoFailedPrefix + GetMemberInfo(wifeInfoReply).error, true) &&
          calls == [FetchMemberInfo(groupId, wife)])
    && (GetMemberInfo(wifeInfoReply).Success? ==>
          calls == [FetchMemberInfo(groupId, wife),
                    SendMessage(groupId, AlreadyHad(userId, wife, DisplayName(GetMemberInfo(wifeInfoReply).value)))] &&
          res == if SendGroupMessage(sendReply).Success? then CommandResult(true, ReturnedMsg, true)
                 else CommandResult(false, SendFailedPrefix + SendGroupMessage(sendReply).error, true))
  }

  /** What the "not drawn yet" half of `execute` does, from the table `before` to the
      table `after`: the roster request comes first; a roster failure or an empty
      candidate list stops there and stores nothing; otherwise the picked candidate
      is stored as the one new row, logged, and named in the reply. */
  ghost predicate DrawOutcome(userId: string, groupId: string, today: string,
                              rosterReply: Reply<seq<MemberInfo>>, groupInfoReply: Reply<GroupInfo>,
                              sendReply: Reply<()>, pick: nat,
                              before: seq<Row>, after: seq<Row>,
                              res: CommandResult, calls: seq<Call>, log: Option<DrawLog>)
    requires PickInRange(rosterReply, userId, pick)
  {
    && res.intercept
    && |calls| > 0 && calls[0] == FetchRoster(groupId)
    && (forall c :: c in calls ==> !c.FetchMemberInfo? && (c.SendMessage? ==> c.message.Drew?))
    && (GetGroupMemberList(rosterReply).Failure? ==>
          res == CommandResult(false, RosterFailedPrefix + GetGroupMemberList(rosterReply).error, true) &&
          calls == [FetchRoster(groupId)] && log.None? && after == before)
    && (GetGroupMemberList(rosterReply).Success? && Candidates(GetGroupMemberList(rosterReply).value, userId) == [] ==>
          res == CommandResult(false, NoCandidatesMsg, true) && calls == [FetchRoster(groupId)] &&
          log.None? && after == before)
    && (GetGroupMemberList(rosterReply).Success? && Candidates(GetGroupMemberList(rosterReply).value, userId) != [] ==>
          var members := GetGroupMemberList(rosterReply).value;
          var wife := Candidates(members, userId)[pick];
          && log == Some(DrawLog(RequesterNameOf(members, userId), userId, GroupNameOf(groupInfoReply), groupId,
                                 DisplayName(wife), wife.userId))
          && after == before + [Row(userId, wife.userId, groupId, today)]
          && calls == [FetchRoster(groupId), FetchGroupInfo(groupId),
                       SendMessage(groupId, Drew(userId, wife.userId, DisplayName(wife)))]
          && res == (if SendGroupMessage(sendReply).Success? then CommandResult(true, DoneMsg, true)
                     else CommandResult(false, SendFailedPrefix + SendGroupMessage(sendReply).error, true)))
  }

  /** The "already drawn" half of `execute`: look up the recorded wife's member info,
      then reply with her name. */
  method ReplyRecordedWife(userId: string, groupId: string, wife: string,
                           wifeInfoReply: Reply<MemberInfo>, sendReply: Reply<()>)
    returns (res: CommandResult, calls: seq<Call>)
    ensures RecordedWifeReply(userId, groupId, wife, wifeInfoReply, sendReply, res, calls)
  {
    calls := [FetchMemberInfo(groupId, wife)];
    var info := GetMemberInfo(wifeInfoReply);
    if info.Failure? {
      res := CommandResult(false, InfoFailedPrefix + info.error, true);
      return;
    }
    var wifeName := DisplayName(info.value);
    calls := calls + [SendMessage(groupId, AlreadyHad(userId, wife, wifeName))];
    var sent := SendGroupMessage(sendReply);
    if sent.Failure? {
      res := CommandResult(false, SendFailedPrefix + sent.error, true);
      return;
    }
    res := CommandResult(true, ReturnedMsg, true);
  }

  /** The "not drawn yet" half of `execute`: fetch the roster, drop the requester, take the
      picked candidate, save her, log the draw and reply. */
  method DrawWife(db: JrlpDatabase, userId: string, groupId: string, today: string,
                  rosterReply: Reply<seq<MemberInfo>>, groupInfoReply: Reply<GroupInfo>,
                  sendReply: Reply<()>, pick: nat)
    returns (res: CommandResult, calls: seq<Call>, log: Option<DrawLog>)
    requires PickInRange(rosterReply, userId, pick)
    modifies db
    ensures DrawOutcome(userId, groupId, today, rosterReply, groupInfoReply, sendReply, pick, old(db.rows), db.rows, res, calls, log)
  {
    log := None;
    calls := [FetchRoster(groupId)];
    var roster := GetGroupMemberList(rosterReply);
    if roster.Failure? {
      res := CommandResult(false, RosterFailedPrefix + roster.error, true);
      return;
    }
    var members := roster.value;

    var candidates := Candidates(members, userId);
    if candidates == [] {
      res := CommandResult(false, NoCandidatesMsg, true);
      return;
    }

    var wifeData := candidates[pick];
    var wifeId := wifeData.userId;
    var wifeName := DisplayName(wifeData);

    db.SaveWife(userId, wifeId, groupId, today);

    var userName := RequesterName(members, userId);
    var groupName := Text(Unknown);
    calls := calls + [FetchGroupInfo(groupId)];
    var groupInfo := GetGroupInfo(groupInfoReply);
    if groupInfo.Success? {
      groupName := GetOr(groupInfo.value.groupName, Unknown);
    }
    log := Some(DrawLog(userName, userId, groupName, groupId, wifeName, wifeId));

    calls := calls + [SendMessage(groupId, Drew(userId, wifeId, wifeName))];
    var sent := SendGroupMessage(sendReply);
    if sent.Failure? {
      res := CommandResult(false, SendFailedPrefix + sent.error, true);
      return;
    }
    res := CommandResult(true, DoneMsg, true);
  }

  /** `JrlpCommand.execute`. The gateway's replies, the date and the random pick are inputs;
      `calls` lists the gateway requests made, `log` the draw's log line. */
  method Execute(db: JrlpDatabase, ctx: ChatContext, today: string,
                 wifeInfoReply: Reply<MemberInfo>, rosterReply: Reply<seq<MemberInfo>>,
                 groupInfoReply: Reply<GroupInfo>, sendReply: Reply<()>, pick: nat)
    returns (res: CommandResult, calls: seq<Call>, log: Option<DrawLog>)
    requires PickInRange(rosterReply, ctx.userId, pick)
    modifies db
    // Outside a group chat: rejected, nothing asked of the gateway, nothing stored.
    ensures !ctx.GroupChat? ==> res == CommandResult(false, NotGroupMsg, false) && calls == [] && log == None
    // The table only ever grows by the one row of a new draw.
    ensures log.None? ==> db.rows == old(db.rows)
    ensures log.Some? ==> db.rows == old(db.rows) + [Row(ctx.userId, log.value.wifeId, ctx.groupId, today)]
    // Already drawn today: no roster fetch, no insert, the reply names the same wife.
    ensures ctx.GroupChat? && HasWife(old(FirstWife(db.rows, ctx.userId, ctx.groupId, today))) ==>
      var wife := old(FirstWife(db.rows, ctx.userId, ctx.groupId, today)).value;
      && log.None?
      && FetchRoster(ctx.groupId) !in calls
      && RecordedWifeReply(ctx.userId, ctx.groupId, wife, wifeInfoReply, sendReply, res, calls)
    // Not drawn yet: a draw from the roster.
    ensures ctx.GroupChat? && !HasWife(old(FirstWife(db.rows, ctx.userId, ctx.groupId, today))) ==>
      DrawOutcome(ctx.userId, ctx.groupId, today, rosterReply, groupInfoReply, sendReply, pick, old(db.rows), db.rows, res, calls, log)
  {
    calls, log := [], None;
    if !ctx.GroupChat? {
      res := CommandResult(false, NotGroupMsg, false);
      return;
    }
    var userId, groupId := ctx.userId, ctx.groupId;

    // `JrlpDatabase(db_path)` on the existing file.
    db.InitDb();

    var existing := db.GetTodayWife(userId, groupId, today);
    assert existing == FirstWife(old(db.rows), userId, groupId, today);
    if HasWife(existing) {
      res, calls := ReplyRecordedWife(userId, groupId, existing.value, wifeInfoReply, sendReply);
    } else {
      res, calls, log := DrawWife(db, userId, groupId, today, rosterReply, groupInfoReply, sendReply, pick);
    }
  }

  /** A new draw never names the requester, names a roster member, and makes the
      requester's key read back the new wife when it had no row before. */
  lemma DrawnWifeIsAnotherMember(userId: string, groupId: string, today: string,
                                 rosterReply: Reply<seq<MemberInfo>>, groupInfoReply: Reply<GroupInfo>,
                                 sendReply: Reply<()>, pick: nat, before: seq<Row>, after: seq<Row>,
                                 res: CommandResult, calls: seq<Call>, log: Option<DrawLog>)
    requires PickInRange(rosterReply, userId, pick)
    requires DrawOutcome(userId, groupId, today, rosterReply, groupInfoReply, sendReply, pick, before, after, res, calls, log)
    requires log.Some?
    ensures log.value.wifeId != userId
    ensures exists m :: m in GetGroupMemberList(rosterReply).value && m.userId == log.value.wifeId
    ensures FirstWife(before, userId, groupId, today).None? ==> FirstWife(after, userId, groupId, today) == Some(log.value.wifeId)
  {
    var members := GetGroupMemberList(rosterReply).value;
    var wife := Candidates(members, userId)[pick];
    assert wife in Candidates(members, userId);
    if FirstWife(before, userId, groupId, today).None? {
      SaveThenLookup(before, userId, wife.userId, groupId, today);
    }
  }

  /** Two draws by the same member in the same group on the same day. When the first one
      drew a new wife (with a non-empty id), the second fetches no roster, stores nothing
      and names the same wife. */
  method DrawAgainSameDay(db: JrlpDatabase, userId: string, groupId: string, today: string,
                          wifeInfo1: Reply<MemberInfo>, roster1: Reply<seq<MemberInfo>>,
                          groupInfo1: Reply<GroupInfo>, send1: Reply<()>, pick1: nat,
                          wifeInfo2: Reply<MemberInfo>, roster2: Reply<seq<MemberInfo>>,
                          groupInfo2: Reply<GroupInfo>, send2: Reply<()>, pick2: nat)
    returns (log1: Option<DrawLog>, calls2: seq<Call>, log2: Option<DrawLog>)
    requires PickInRange(roster1, userId, pick1) && PickInRange(roster2, userId, pick2)
    modifies db
    ensures log1.Some? && old(FirstWife(db.rows, userId, groupId, today)).None? && log1.value.wifeId != "" ==>
      && db.rows == old(db.rows) + [Row(userId, log1.value.wifeId, groupId, today)]
      && log2.None?
      && FetchRoster(groupId) !in calls2
      && |calls2| > 0 && calls2[0] == FetchMemberInfo(groupId, log1.value.wifeId)
      && (forall c :: c in calls2 && c.SendMessage? ==> c.message.wifeId == log1.value.wifeId)
  {
    var ctx := GroupChat(userId, groupId);
    ghost var before := db.rows;
    var res1, calls1;
    res1, calls1, log1 := Execute(db, ctx, today, wifeInfo1, roster1, groupInfo1, send1, pick1);
    if log1.Some? && FirstWife(before, userId, groupId, today).None? {
      DrawnWifeIsAnotherMember(userId, groupId, today, roster1, groupInfo1, send1, pick1, before, db.rows, res1, calls1, log1);
    }
    var res2;
    res2, calls2, log2 := Execute(db, ctx, today, wifeInfo2, roster2, groupInfo2, send2, pick2);
  }

  /** A stored empty wife id fails the truthiness test, and since the lookup answers the
      first matching row, no rows appended later for the same key can ever be seen: every
      later draw that day draws again and inserts another row. */
  lemma {:induction false} EmptyWifeStaysHidden(rows: seq<Row>, more: seq<Row>, qq: string, group: string, date: string)
    requires FirstWife(rows, qq, group, date) == Some("")
    ensures FirstWife(rows + more, qq, group, date) == Some("")
    ensures !HasWife(FirstWife(rows + more, qq, group, date))
    decreases |more|
  {
    if more == [] {
      assert rows + more == rows;
    } else {
      FirstWifeAfterAppend(rows, more[0], qq, group, date);
      assert rows + more == (rows + [more[0]]) + more[1..];
      EmptyWifeStaysHidden(rows + [more[0]], more[1..], qq, group, date);
    }
  }

  /** The roster of the worked example below, as the filter sees it. */
  lemma ExampleCandidates(m111: MemberInfo, m222: MemberInfo, m333: MemberInfo)
    requires m111.userId == "111" && m222.userId == "222" && m333.userId == "333"
    ensures Candidates([m111, m222, m333], "111") == [m222, m333]
  {
    assert [m333][1..] == [];
    assert Candidates([m333], "111") == [m333];
    assert [m222, m333][1..] == [m333];
    assert Candidates([m222, m333], "111") == [m222, m333];
    assert [m111, m222, m333][1..] == [m222, m333];
  }

  /** Member 111 draws in group G1 on 2024-01-01 from roster [111, 222, 333] on a new
      database, and the random pick selects 222. */
  method ExampleFirstDraw() returns (res: CommandResult, calls: seq<Call>, log: Option<DrawLog>, rows: seq<Row>)
    ensures rows == [Row("111", "222", "G1", "2024-01-01")]
    ensures log == Some(DrawLog(Text("A"), "111", Text("G"), "G1", Text("B"), "222"))
    ensures res == CommandResult(true, DoneMsg, true)
    ensures |calls| > 0 && calls[0] == FetchRoster("G1")
    ensures calls[|calls| - 1] == SendMessage("G1", Drew("111", "222", Text("B")))
  {
    var db := new JrlpDatabase();
    var m111 := MemberInfo("111", Text("A"), Missing);
    var m222 := MemberInfo("222", Missing, Text("B"));
    var m333 := MemberInfo("333", Null, Missing);
    var roster := [m111, m222, m333];
    ExampleCandidates(m111, m222, m333);
    var rosterReply: Reply<seq<MemberInfo>> := Body(Some(roster));
    var sendReply: Reply<()> := Body(None);
    assert GetGroupMemberList(rosterReply) == Success(roster);
    assert SendGroupMessage(sendReply) == Success(());
    assert FirstWife(db.rows, "111", "G1", "2024-01-01") == None;
    assert RequesterNameOf(roster, "111") == Text("A");
    res, calls, log := Execute(db, GroupChat("111", "G1"), "2024-01-01",
                               NetError("unused"), rosterReply,
                               Body(Some(GroupInfo(Text("G")))), sendReply, 0);
    rows := db.rows;
  }
}
