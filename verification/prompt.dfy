/**
 * Prompt assembly: the sanitised history is cut down to its most recent turns,
 * then framed by one fixed system turn in front and the new user message behind.
 */
module Prompt {
  import opened PhpValues
  import opened Sanitizer

  /** How many sanitised history turns reach the completion service. */
  const MaxTurns: nat := 20

  /** The fixed persona instruction sent as the system turn. */
  const SystemPrompt := "You are a friendly website assistant for GG Dev. Answer briefly, conversationally, and helpfully."

  const SystemTurn := Turn("system", SystemPrompt)

  /**
   * `array_slice($clean, -20)`: the last `MaxTurns` turns, or all of them when
   * there are fewer; the kept turns stay in their original order.
   */
  function Recent(clean: seq<Turn>): (r: seq<Turn>)
    ensures |r| == if |clean| < MaxTurns then |clean| else MaxTurns
    ensures r == clean[|clean| - |r|..]
  {
    if |clean| <= MaxTurns then clean else clean[|clean| - MaxTurns..]
  }

  /** Bounding never admits a turn that was not well-formed. */
  lemma RecentWellFormed(clean: seq<Turn>)
    requires forall k :: 0 <= k < |clean| ==> WellFormed(clean[k])
    ensures forall k :: 0 <= k < |Recent(clean)| ==> WellFormed(Recent(clean)[k])
  {
    var r := Recent(clean);
    forall k | 0 <= k < |r| ensures WellFormed(r[k]) {
      assert r[k] == clean[|clean| - |r| + k];
    }
  }

  /**
   * The message list: the system turn, then the bounded history unchanged, then
   * the new message as a user turn.
   */
  function Assemble(bounded: seq<Turn>, message: string): (r: seq<Turn>)
    ensures |r| == |bounded| + 2
    ensures r[0] == SystemTurn
    ensures r[|r| - 1] == Turn("user", message)
    ensures r[1..|r| - 1] == bounded
  {
    [SystemTurn] + bounded + [Turn("user", message)]
  }

  /** The number of turns in `ts` carrying `role`. */
  function CountRole(ts: seq<Turn>, role: string): (n: nat)
    ensures n <= |ts|
  {
    if ts == [] then 0
    else CountRole(ts[..|ts| - 1], role) + (if ts[|ts| - 1].role == role then 1 else 0)
  }

  lemma {:induction false} CountRoleAppend(a: seq<Turn>, b: seq<Turn>, role: string)
    ensures CountRole(a + b, role) == CountRole(a, role) + CountRole(b, role)
  {
    if b == [] {
      assert a + b == a;
    } else {
      var n := |b| - 1;
      assert (a + b)[..|a + b| - 1] == a + b[..n];
      CountRoleAppend(a, b[..n], role);
    }
  }

  /** A history of user and assistant turns holds no system turn. */
  lemma {:induction false} NoSystemInHistory(ts: seq<Turn>)
    requires forall k :: 0 <= k < |ts| ==> WellFormed(ts[k])
    ensures CountRole(ts, "system") == 0
  {
    if ts != [] {
      var n := |ts| - 1;
      NoSystemInHistory(ts[..n]);
      assert ts[n].role != "system";
    }
  }

  /** The prompt built from any history. */
  function BuildMessages(history: seq<Value>, stripTags: string -> string, message: string): (r: seq<Turn>)
    ensures |r| == |Recent(Sanitized(history, stripTags))| + 2 <= MaxTurns + 2
    ensures r[0] == SystemTurn && r[|r| - 1] == Turn("user", message)
  {
    Assemble(Recent(Sanitized(history, stripTags)), message)
  }

  /**
   * Whatever the client sends as history, the message list holds exactly one
   * system turn, the first, and every other turn is a user or assistant turn.
   */
  lemma ExactlyOneSystemTurn(history: seq<Value>, stripTags: string -> string, message: string)
    ensures CountRole(BuildMessages(history, stripTags, message), "system") == 1
    ensures BuildMessages(history, stripTags, message)[0].role == "system"
    ensures forall k :: 1 <= k < |BuildMessages(history, stripTags, message)| ==>
              HistoryRole(BuildMessages(history, stripTags, message)[k].role)
  {
    var bounded := Recent(Sanitized(history, stripTags));
    RecentWellFormed(Sanitized(history, stripTags));
    NoSystemInHistory(bounded);
    var user := [Turn("user", message)];
    CountRoleAppend([SystemTurn] + bounded, user, "system");
    CountRoleAppend([SystemTurn], bounded, "system");
    assert CountRole(user, "system") == 0 by { assert user[..0] == []; }
    assert CountRole([SystemTurn], "system") == 1 by { assert [SystemTurn][..0] == []; }
    var m := BuildMessages(history, stripTags, message);
    forall k | 1 <= k < |m| ensures HistoryRole(m[k].role) {
      if k < |m| - 1 {
        assert m[k] == bounded[k - 1];
      }
    }
  }

  /**
   * The history part of the message list is the last min(n, 20) sanitised turns,
   * in order, where n is the number of sanitised turns.
   */
  lemma HistoryPartIsRecentSuffix(history: seq<Value>, stripTags: string -> string, message: string)
    ensures var clean := Sanitized(history, stripTags);
            var m := BuildMessages(history, stripTags, message);
            var kept := if |clean| < MaxTurns then |clean| else MaxTurns;
            |m| == kept + 2 && m[1..|m| - 1] == clean[|clean| - kept..]
  {
  }

  /** With no history the prompt is just the system turn and the new message. */
  lemma EmptyHistoryGivesTwoMessages(stripTags: string -> string, message: string)
    ensures BuildMessages([], stripTags, message) == [SystemTurn, Turn("user", message)]
  {
    assert Sanitized([], stripTags) == [];
    assert Recent([]) == [];
    assert [SystemTurn] + [] + [Turn("user", message)] == [SystemTurn, Turn("user", message)];
  }

  /** Twenty-five valid history turns give twenty, and twenty-two messages in all. */
  lemma TwentyFiveValidTurnsGiveTwentyTwoMessages(history: seq<Value>, stripTags: string -> string, message: string)
    requires |history| == 25
    requires forall j :: 0 <= j < |history| ==> CleanTurn(history[j], stripTags).Some?
    ensures |Recent(Sanitized(history, stripTags))| == 20
    ensures |BuildMessages(history, stripTags, message)| == 22
  {
    SanitizedKeepsAllValid(history, stripTags);
  }
}
