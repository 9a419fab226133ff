/** The `/cmds` reply: the basic command list for everyone, followed, for the
    admin only, by the admin commands and the number of approved users. */
module CommandList {
  import opened Wrappers
  import opened Decimal
  import opened AccessControl

  /** The lines every caller gets, in the order the handler appends them. */
  const BasicLines: seq<string> := [
    "\U{1F4CB} *Command List*\n\n",
    "\U{1F464} *Basic Commands:*\n",
    "/start — Welcome message\n",
    "/help — How to use the bot\n",
    "/id — Show your Telegram ID\n",
    "/status — Show bot status\n",
    "/cmds — Show command list\n\n"]

  const AdminHeader: string := "\U{1F6E0}\U{FE0F} *Admin Commands:*\n"

  /** The lines only the admin gets, before the count. */
  const AdminLines: seq<string> := [
    AdminHeader,
    "/approve <id> — Approve user\n",
    "/remove <id> — Remove user\n",
    "/ban <id> — Ban user\n",
    "/unban <id> — Unban user\n"]

  /** The lines appended one after another (`text += line`). */
  function Join(lines: seq<string>): string
    decreases |lines|
  {
    if lines == [] then "" else Join(lines[..|lines| - 1]) + lines[|lines| - 1]
  }

  lemma {:induction false} JoinLacks(lines: seq<string>, c: char)
    requires forall k :: 0 <= k < |lines| ==> c !in lines[k]
    ensures c !in Join(lines)
    decreases |lines|
  {
    if lines != [] {
      JoinLacks(lines[..|lines| - 1], c);
    }
  }

  lemma {:induction false} JoinStartsWithFirst(lines: seq<string>)
    requires |lines| > 0
    ensures StartsWith(Join(lines), lines[0])
    decreases |lines|
  {
    if |lines| > 1 {
      var init := lines[..|lines| - 1];
      JoinStartsWithFirst(init);
      assert init[0] == lines[0];
      assert Join(lines)[..|lines[0]|] == Join(init)[..|lines[0]|];
    }
  }

  const BasicSection: string := Join(BasicLines)

  const AdminSection: string := Join(AdminLines)

  const CountLabel: string := "\n✅ Approved Users: "

  predicate StartsWith(t: string, p: string) {
    |p| <= |t| && t[..|p|] == p
  }

  predicate OccursAt(t: string, p: string, i: int) {
    0 <= i <= |t| - |p| && t[i..i + |p|] == p
  }

  predicate Contains(t: string, p: string) {
    exists i :: 0 <= i <= |t| - |p| && OccursAt(t, p, i)
  }

  /** The reply text for a caller, given the current lists. */
  function CommandsText(l: Lists, admin: int, caller: int): (t: string)
    ensures StartsWith(t, BasicSection)
    ensures caller != admin ==> t == BasicSection
    ensures caller == admin ==>
              var n := |BasicSection + AdminSection + CountLabel|;
              && StartsWith(t[|BasicSection|..], AdminSection)
              && n <= |t|
              && t[..n] == BasicSection + AdminSection + CountLabel
              && ParseInt(t[n..]) == Some(|l.approved|)
  {
    var t := BasicSection;
    if IsAdmin(admin, caller) then
      var n := |BasicSection + AdminSection + CountLabel|;
      var u := t + AdminSection + CountLabel + IntToDecimal(|l.approved|);
      assert u[..n] == BasicSection + AdminSection + CountLabel;
      assert u[n..] == IntToDecimal(|l.approved|);
      assert u[|BasicSection|..][..|AdminSection|] == AdminSection;
      IntRoundTrip(|l.approved|);
      u
    else t
  }

  /** A text lacking some character of `p` cannot contain `p`. */
  lemma MissingCharRulesOut(t: string, p: string, c: char)
    requires c in p && c !in t
    ensures !Contains(t, p)
  {
  }

  /** The admin header's first character does not occur in the basic lines. */
  lemma BasicLacksToolMark()
    ensures '\U{1F6E0}' !in BasicSection
  {
    assert forall k :: 0 <= k < |BasicLines| ==> '\U{1F6E0}' !in BasicLines[k];
    JoinLacks(BasicLines, '\U{1F6E0}');
  }

  /** The count line's check mark does not occur in the basic lines. */
  lemma BasicLacksCheckMark()
    ensures '✅' !in BasicSection
  {
    assert forall k :: 0 <= k < |BasicLines| ==> '✅' !in BasicLines[k];
    JoinLacks(BasicLines, '✅');
  }

  /** The admin header is shown if and only if the caller is the admin. */
  lemma AdminSectionIffAdmin(l: Lists, admin: int, caller: int)
    ensures Contains(CommandsText(l, admin, caller), AdminHeader) <==> caller == admin
  {
    var t := CommandsText(l, admin, caller);
    if caller == admin {
      var b := |BasicSection|;
      assert t[b..][..|AdminSection|] == AdminSection;
      JoinStartsWithFirst(AdminLines);
      assert AdminSection[..|AdminHeader|] == AdminHeader;
      assert t[b..b + |AdminHeader|] == AdminSection[..|AdminHeader|];
      assert OccursAt(t, AdminHeader, b);
    } else {
      BasicLacksToolMark();
      MissingCharRulesOut(t, AdminHeader, '\U{1F6E0}');
    }
  }

  /** The approved-user count line is shown if and only if the caller is the admin. */
  lemma CountShownIffAdmin(l: Lists, admin: int, caller: int)
    ensures Contains(CommandsText(l, admin, caller), CountLabel) <==> caller == admin
  {
    var t := CommandsText(l, admin, caller);
    if caller == admin {
      var b := |BasicSection + AdminSection|;
      assert OccursAt(t, CountLabel, b);
    } else {
      BasicLacksCheckMark();
      MissingCharRulesOut(t, CountLabel, '✅');
    }
  }
}
