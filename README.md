# jrlp-plugin ("今日老婆", daily wife) in Dafny

A model of the core of a chatbot plugin. A member of a group chat sends the command,
and the plugin gives them a random "wife" for the day from the group's member list.
The plugin stores the result so that a second request on the same day returns the same
member.

The model has four modules:

- `Wrappers` (`wrappers.dfy`) holds `Option` and `Result`. `Result` is the plugin's
  `(success, data_or_error)` pair.
- `Store` (`store.dfy`) is the table `jrlp(qq, wife, group, date)` behind `JrlpDatabase`.
  - The table is the `rows: seq<Row>` field of class `JrlpDatabase`. The auto-increment
    `id` is not stored; it follows insertion order, which is the order of `rows`.
  - `GetTodayWife` is the equality `SELECT ... WHERE` plus `fetchone`. Its specification
    is the function `FirstWife`.
  - `SaveWife` is a plain `INSERT` that appends one row.
  - `InitDb` is `_init_db` on an existing file. Both statements say `IF NOT EXISTS`, so
    it keeps every row.
- `Gateway` (`gateway.dfy`) holds the parts of the gateway helpers that can be modelled.
  - A gateway reply (`Reply`) is either a transport error message or a JSON body whose
    `data` field may be absent or `null`.
  - `Unwrap` is the shared `data is None` check of the three `get_*` helpers.
  - `DisplayName` is the `card or nickname-or-"未知"` fallback. It works on `Field`
    values, which give Python's `dict.get` view of a key: absent, `null`, or a string.
- `Command` (`command.dfy`) holds `JrlpCommand.execute` as the method `Execute`.
  - Everything outside the table is an input: the chat context, `today`, each gateway
    reply, and the random pick (an index into the candidate list).
  - The method returns the `(ok, message, intercept)` triple, the gateway requests in
    the order they are made (`calls`), and the content of the log line written after
    a new draw (`log`).
  - The two branches of `execute` are the helper methods `ReplyRecordedWife` (a wife is
    already recorded today) and `DrawWife` (none is). The predicates `RecordedWifeReply`
    and `DrawOutcome` state what each branch does.
  - `Candidates` is the self-excluding roster filter.
  - `RequesterName` is the `for ... break` loop that finds the requester's display name.
    Its specification is `RequesterNameOf`. `GroupNameOf` is the best-effort group name.

Points where the code decides the behaviour:

- The lookup returns the FIRST matching row, not the most recent one. The query has no
  `ORDER BY`; the model takes the table's insertion order.
- A non-group context is rejected explicitly. The tuple has `intercept = false`.
- `plugin.py` has no admin handler (query, override by upsert, paginated listing), so
  none is modelled.

## Model

| member | source | states |
|---|---|---|
| `Store.FirstMatch` | plugin.py:63-70 | The returned position is a row matching all three keys, and no earlier row matches. `None` is returned exactly when no row matches. |
| `Store.FirstWife` | plugin.py:52-70 | `None` is returned exactly when no row matches the key. Otherwise the result is the `wife` of a matching row. |
| `Store.FirstMatchAfterAppend` | plugin.py:63-87 | After an insert, the first match of any key stays where it was. A key that had no match finds the new row only if that row matches it. |
| `Store.FirstWifeAfterAppend` | plugin.py:63-87 | After an insert, a key that had a wife keeps the same wife. A key without one gets the new row's wife if the row matches it, and stays absent otherwise. |
| `Store.SaveThenLookup` | plugin.py:63-87 | After saving `w` for a key that had no row, the lookup for that key returns `w`. |
| `Store.JrlpDatabase.constructor` | plugin.py:28-50 | A database created on a new file has an empty table. |
| `Store.JrlpDatabase.InitDb` | plugin.py:32-50 | Re-initialising the database (`CREATE ... IF NOT EXISTS`) leaves every row unchanged. |
| `Store.JrlpDatabase.GetTodayWife` | plugin.py:52-70 | Returns the wife of the first row matching qq, group and date. It returns `None` exactly when no row matches. |
| `Store.JrlpDatabase.SaveWife` | plugin.py:72-87 | Appends exactly the row `(qq, wife, group, date)` at the end of the table, with no duplicate check, and leaves every existing row unchanged. |
| `Gateway.GetOr` | plugin.py:307 | `dict.get(key, default)`: the default replaces only an absent key, and a present value, `null` included, is kept. |
| `Gateway.DisplayName` | plugin.py:258 | The name is `card` when it is a non-empty string. Otherwise it is `nickname`, and "未知" is used only when the `nickname` key is absent. |
| `Gateway.UnknownOnlyWithoutNickname` | plugin.py:289 | The name "未知" can come from the fallback only when the card is falsy and the `nickname` key is absent. |
| `Gateway.Unwrap` | plugin.py:143-150 | The result is a success exactly when the reply is a body whose `data` is present. It then carries that `data`. A transport failure passes its message through. A missing or `null` `data` gives the helper's own error message. |
| `Gateway.GetGroupMemberList` | plugin.py:128-150 | Success exactly when `data` is present, with that list. A missing `data` fails with "获取群成员列表失败：返回数据为空". An empty list is a success. |
| `Gateway.GetMemberInfo` | plugin.py:152-175 | Success exactly when `data` is present. A missing `data` fails with "获取群成员信息失败：返回数据为空". |
| `Gateway.GetGroupInfo` | plugin.py:177-199 | Success exactly when `data` is present. A missing `data` fails with "获取群信息失败：返回数据为空". |
| `Gateway.SendGroupMessage` | plugin.py:201-224 | Sending succeeds exactly when the transport succeeded. The reply body's `data` is not inspected. |
| `Command.Candidates` | plugin.py:280 | Every candidate is a roster member whose id differs from the requester's, and there are never more candidates than roster members. |
| `Command.CandidatesComplete` | plugin.py:280 | Every roster member whose id differs from the requester's is a candidate. |
| `Command.CandidatesConcat` | plugin.py:280 | The filter keeps roster order: filtering a concatenation gives the concatenation of the filtered parts. |
| `Command.CandidatesWithoutRequester` | plugin.py:280 | A roster that does not contain the requester is kept whole and in order. |
| `Command.CandidatesOnlyRequester` | plugin.py:280-284 | A roster holding only the requester, or nobody, leaves no candidate. |
| `Command.RequesterIndex` | plugin.py:299-300 | The result is the position of the first roster entry whose id is the requester's. It is `None` exactly when no entry is the requester. |
| `Command.RequesterNameOf` | plugin.py:295-302 | The result is the display name of the first roster entry whose id is the requester's. It is "未知" when the requester is not on the roster. |
| `Command.RequesterName` | plugin.py:295-302 | The loop computes `RequesterNameOf`: the display name of the first roster entry that is the requester, or "未知" when there is none. |
| `Command.GroupNameOf` | plugin.py:296-307 | A failed group-info request gives "未知". Otherwise the result is the `group_name` field, with "未知" only when that key is absent. |
| `Command.ReplyRecordedWife` | plugin.py:251-271 | The "already drawn" branch makes one member-info request for the recorded wife. If that request fails, the command fails with "获取信息失败: " and the error. Otherwise it sends one reply naming that wife with her display name. The result is a success ("已返回今日老婆") exactly when the reply was sent. |
| `Command.DrawWife` | plugin.py:273-323 | The "not drawn yet" branch fetches the roster first. A roster failure or an empty candidate list fails with the source's message and leaves the table unchanged. Otherwise the picked candidate is appended as the single new row `(user, wife, group, today)`. The log line is then exactly (`RequesterNameOf` of the roster, user id, `GroupNameOf` of the group-info reply, group id, the wife's display name, the wife's id). The group-info request comes next, then one reply naming her. The result is a success ("执行成功") exactly when the reply was sent. |
| `Command.Execute` | plugin.py:226-323 | Outside a group chat the command fails with "该命令仅支持群聊环境" and `intercept = false`, makes no gateway call and stores nothing. The table only ever grows, by the one row of a new draw. If a truthy wife is recorded for (user, group, today), there is no roster fetch and no insert, and the reply names that same wife. Otherwise the command makes a draw as `DrawWife` states. |
| `Command.DrawnWifeIsAnotherMember` | plugin.py:280-292 | A new draw never names the requester, always names a roster member, and makes the requester's key for today read back the new wife when it had no row before. |
| `Command.DrawAgainSameDay` | plugin.py:249-271 | A first draw records a new wife with a non-empty id. A second draw by the same member that day then fetches no roster, stores nothing and names the same wife. |
| `Command.EmptyWifeStaysHidden` | plugin.py:249-251 | If the first matching row stores an empty wife id, then after appending any sequence of rows the lookup still returns that empty id. The truthiness test therefore keeps treating the member as not drawn yet. |
| `Command.ExampleFirstDraw` | plugin.py:273-323 | Member 111 draws in group G1 on 2024-01-01 from roster [111, 222, 333] with the pick on 222. This stores exactly the row (111, 222, G1, 2024-01-01), logs (A, 111, G, G1, B, 222), sends a reply naming 222 with its nickname, and succeeds. |

## Left out

- HTTP transport (`_make_request`, URL building, JSON encoding and decoding, the 10-second timeout, exception-to-message mapping). Each gateway call is an input `Reply` that carries the error text `_make_request` would produce.
- A reply body that is not a JSON object: `result.get("data")` (plugin.py:147, 172, 196) runs outside `_make_request`'s `try`, so Python would raise `AttributeError` out of `execute`. `Reply` assumes an object body. Likewise a `data` value that is not an object or a list would raise at `.get`. Members are modelled as records with `user_id`, `card` and `nickname`. `userId` is the `str(...)` of the `user_id` value, taken as given.
- SQLite connections, commits and the index `idx_jrlp_query`. The index affects only speed. The table is an in-memory sequence, and storage failures are not modelled.
- `random.choice`: replaced by an index `pick` that must lie inside the non-empty candidate list.
- `datetime.now().strftime("%Y-%m-%d")`: `today` is a string input.
- Reply formatting. Segment layout, newline and text segments and avatar URLs are not modelled; a reply is modelled as its mention, wife id and wife display name. Log formatting is not modelled either; the log line is modelled as its contents.
- Command.Execute: the model does not state that the non-group path performs no read of the table. Reads are not observable in the model; it states that nothing is written and no gateway call is made.
- Concurrency: the check-then-insert race between simultaneous invocations. The model is sequential.
- `JrlpPlugin`, `register_plugin`, `config_schema`, configuration lookup (`napcat.address` and `napcat.port` only build URLs) and the `async` framework.
- An admin handler (query, queryall with pagination, override with upsert). It is not part of `plugin.py`.
