# Access control, uptime and command list of a Telegram bot, in Dafny

This project models the self-contained bookkeeping of a single-file Telegram
bot (`main.py`):

- **Uptime formatter** (`format_timedelta`): a whole number of seconds goes
  through two `divmod` steps and comes out as the text `"<h>h <m>m <s>s"`.
  Module `Uptime`, with the decimal rendering of integers that Python's
  f-strings use in the module `Decimal`.
- **Access control**: the bot keeps an approved set and a banned set of user
  ids and a fixed admin id (`BOT_ADMIN_ID`). The admin starts approved. The
  admin commands `/approve`, `/remove`, `/ban` and `/unban` add an id to, or
  discard it from, one of the sets. Every plain text message is checked
  against the banned set first and the approved set second. Module
  `AccessControl`:
  - the class `AccessList` has the two sets as fields and the admin id as a
    constant;
  - `is_admin` (main.py:38) is the predicate `IsAdmin`, used by the handlers,
    by `Execute` and by the command list;
  - each handler is a method that modifies only the set it edits;
  - each method is tied to the value-level specification function `Execute`
    (for the commands) or `Admission` (for the gate), and the properties are
    proved about those functions.
- **Command list** (`cmds_cmd`): the `/cmds` reply. It is built line by line.
  Only the admin's copy gets the admin command lines and the number of
  approved users. Module `CommandList`.

A command's argument (`int(context.args[0])`) is an `Option<int>`. `None`
stands for a missing argument and for one Python's `int()` rejects. Both go
to the `except` branch and get the usage reply. A handler's reply is an
`Option<Reply>`. `None` means the handler returned without replying, which is
what happens to a caller who is not the admin.

The message gate follows the code. `handle_msg` answers a banned user with
the ban reply and stops. Otherwise it sends "⏳ Processing automation..."
before the approval check in `fill_checkout_form` runs. So an unbanned user
who is not approved gets two replies: the processing message, then the
not-approved message. Nothing is processed in that case, although the
processing message has already gone out.

## Model

| member | source | states |
|---|---|---|
| `Uptime.Split` | main.py:40-43 | hours·3600 + minutes·60 + seconds recomposes the count; minutes and seconds lie in 0..59 for every count, negative ones included (floor `divmod`); hours are non-negative exactly when the count is |
| `Uptime.SplitUnique` | main.py:42-43 | any decomposition with minutes and seconds in 0..59 is the one `Split` returns |
| `Uptime.HoursNotCapped` | main.py:42 | hours are the whole number of 3600-second blocks, not reduced modulo 24: a day or more shows at least 24h |
| `Uptime.Format` | main.py:40-44 | the text reads back through `Parse` as exactly the split components; since `Parse` accepts only the exact text `Render` writes (no zero padding, no `-0`), this fixes the text to `"<h>h <m>m <s>s"` with Python's `str` of each component |
| `Uptime.Parse` | main.py:44 | whatever it accepts is exactly `Render` of the components it returns, so no other spelling of an uptime reads back |
| `Uptime.FormatDetermined` | main.py:40-44 | any text that reads back as the split of a count is the formatted text of that count |
| `Uptime.FormatInjective` | main.py:40-44 | two different second counts never render as the same text |
| `Uptime.FormatExample` | main.py:40-44 | 90061 seconds renders as `"25h 1m 1s"` |
| `Decimal.NatToDecimal` | main.py:44 | the rendering of a non-negative `int` is a non-empty digit string with no leading zero; zero renders as `"0"` |
| `Decimal.IntToDecimal` | main.py:44 | the rendering of an `int` starts with a minus sign exactly when the number is negative, and the rest is the canonical numeral (no leading zero, `"0"` only for zero) of its magnitude; this fixes the text uniquely |
| `Decimal.ParseInt` | main.py:44 | any numeral it accepts is exactly the rendering of the value it returns; leading zeros and `"-0"` are rejected |
| `Decimal.CanonicalIsRendering` | main.py:44 | every canonical numeral is the rendering of its value, so each value has exactly one |
| `Decimal.IntRoundTrip` | main.py:44 | the decimal text of any integer, sign included, reads back as that integer |
| `Decimal.IntToDecimalInjective` | main.py:44 | distinct integers render as distinct texts |
| `AccessControl.IsAdmin` | main.py:38 | no contract of its own: it is the bare equality of the source; its effect is stated by `Execute` (a non-admin caller changes nothing and gets no reply), `NonAdminCallsInert`, `CommandsText` and `AdminSectionIffAdmin` |
| `AccessControl.AccessList.constructor` | main.py:33-35 | initially the approved set is exactly `{admin}` and the banned set is empty |
| `AccessControl.Execute` | main.py:225-255 | a non-admin caller changes nothing and gets no reply; an admin with no usable argument changes nothing and gets the usage reply; an admin with an id gets the confirmation, the command's target set gains (approve, ban) or loses (remove, unban) exactly that id, and the other set is unchanged |
| `AccessControl.ReplyText` | main.py:225-255 | the usage reply names the command; a confirmation ends with the id, which reads back as that id |
| `AccessControl.ReplyTextInjective` | main.py:225-255 | different replies have different texts: the confirmation text tells which of the four commands ran and on which id, and the usage text tells which command it is for |
| `AccessControl.AccessList.Approve` | main.py:225-231 | modifies only the approved set; the new sets and the reply are those of `Execute` for `/approve` |
| `AccessControl.AccessList.Remove` | main.py:233-239 | modifies only the approved set; the new sets and the reply are those of `Execute` for `/remove` |
| `AccessControl.AccessList.Ban` | main.py:241-247 | modifies only the banned set; the new sets and the reply are those of `Execute` for `/ban` |
| `AccessControl.AccessList.Unban` | main.py:249-255 | modifies only the banned set; the new sets and the reply are those of `Execute` for `/unban` |
| `AccessControl.NonAdminCallsInert` | main.py:226 | any sequence of commands from callers other than the admin leaves both sets unchanged |
| `AccessControl.UsageCallsInert` | main.py:227-231 | any sequence of commands whose arguments are missing or unparsable leaves both sets unchanged |
| `AccessControl.ExecuteIdempotent` | main.py:225-255 | repeating an admin command with the same id has no further effect on the sets |
| `AccessControl.DiscardRemoves` | main.py:233-239 | after `/remove` or `/unban` the id is absent from the target set, and the confirmation is sent even if the id was never there |
| `AccessControl.AddThenDiscard` | main.py:225-255 | approve-then-remove of an id that was not approved, or ban-then-unban of an id that was not banned, restores both sets |
| `AccessControl.Admission` | main.py:258-264 | the ban check and processing reply of main.py:258-264, then the approval check of main.py:62-66: the request proceeds if and only if the user is not banned and is approved; a banned user gets only the ban reply, even if approved; otherwise the processing reply comes first, followed by the not-approved reply when the user is not approved |
| `AccessControl.AccessList.Admit` | main.py:62-66 | the gate of main.py:258-264 followed by the approval check of main.py:62-66; reads the sets without changing them; the gate's outcome is `Admission` on the current sets, and it proceeds exactly when the user is unbanned and approved |
| `AccessControl.BanShutsOut` | main.py:258-262 | after the admin bans an id, that user is turned away with the ban reply whatever the approved set holds, the admin included |
| `CommandList.CommandsText` | main.py:202-222 | every caller's text starts with the basic section; a non-admin gets only that; the admin's text continues with the admin section and the count label, and the rest reads back through `ParseInt` as the number of approved users, which makes it exactly `str(len(approved_users))` |
| `CommandList.AdminSectionIffAdmin` | main.py:214-219 | the admin command header occurs in the text if and only if the caller is the admin |
| `CommandList.CountShownIffAdmin` | main.py:220 | the approved-user count line occurs in the text if and only if the caller is the admin |

## Left out

- Card-record parsing, verification-code generation and the browser automation of `fill_checkout_form` after its approval check (main.py:46-59, main.py:68-163) are not part of this model. `Admission` ends where that processing would begin.
- The Telegram transport is I/O and is left out: sending replies, registering handlers, polling, and the static `/start`, `/help` and `/id` texts (main.py:166-187, main.py:267-286). Replies are returned as values instead of being sent.
- A failure while sending a confirmation is not modelled. In the code that failure lands in the same `except` as a bad argument, so the usage reply would follow a change that has already happened. Send failures are transport I/O.
- `status_cmd` (main.py:189-200) is left out: it reads the clock, process memory and OS name through foreign calls, and computes a float ping.
- `Uptime.Split`: the input is the integer second count. Taking a `timedelta`'s float `total_seconds()` and truncating it with `int()` is not modelled, because it involves clocks and floating point.
- Python's `int()` parsing of the command argument (whitespace, signs, underscores) is not modelled. The argument is abstracted as `Option<int>`.
- `Decimal.ParseInt` is not Python's `int()`. It is only the inverse of the rendering and is used to state the round trips.
- `asyncio` and `nest_asyncio` are left out: they are single-threaded scheduling scaffolding with no logic of their own.
