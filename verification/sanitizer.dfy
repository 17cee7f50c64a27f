/**
 * The history sanitiser of the relay handler: the client-supplied `history` list is
 * walked once, and only entries whose lower-cased role is "user" or "assistant" and
 * whose tag-stripped content is non-empty are kept, in their original order.
 */
module Sanitizer {
  import opened PhpValues

  /** One conversation turn as it is sent to the completion service. */
  datatype Turn = Turn(role: string, content: string)

  /** The only roles a client-supplied turn may carry. */
  predicate HistoryRole(role: string) {
    role == "user" || role == "assistant"
  }

  /** What every sanitised turn satisfies. */
  predicate WellFormed(t: Turn) {
    HistoryRole(t.role) && t.content != ""
  }

  /** The role of a history entry, lower-cased; "" when the entry has none. */
  function RoleOf(entry: Value): (r: string)
    ensures r != "" ==> IssetGet(entry, "role").Some?
    ensures IssetGet(entry, "role").Some? ==> |r| == |PhpString(IssetGet(entry, "role").value)|
    ensures forall k :: 0 <= k < |r| ==> !IsUpper(r[k])
  {
    match IssetGet(entry, "role")
    case Some(v) => LowerAscii(PhpString(v))
    case None => ""
  }

  /** The content of a history entry coerced to a string; "" when the entry has none. */
  function RawContentOf(entry: Value): (r: string)
    ensures IssetGet(entry, "content").None? ==> r == ""
    ensures IssetGet(entry, "content").Some? && IssetGet(entry, "content").value.Str? ==>
              r == IssetGet(entry, "content").value.s
  {
    match IssetGet(entry, "content")
    case Some(v) => PhpString(v)
    case None => ""
  }

  /**
   * The sanitised form of one history entry, or None when the entry is skipped.
   * `stripTags` stands for `wp_strip_all_tags`.
   */
  function CleanTurn(entry: Value, stripTags: string -> string): (r: Option<Turn>)
    ensures r.Some? ==> WellFormed(r.value) && r.value.role == RoleOf(entry)
  {
    var role := RoleOf(entry);
    if role != "user" && role != "assistant" then None
    else
      var content := stripTags(RawContentOf(entry));
      if content == "" then None else Some(Turn(role, content))
  }

  /**
   * The entries of `s` that `f` keeps, mapped through `f`, in their original order:
   * the shape of a `foreach` that appends to a fresh array whenever a guard passes.
   */
  function FilterMap<A, B>(s: seq<A>, f: A -> Option<B>): (r: seq<B>)
    ensures |r| <= |s|
  {
    if s == [] then []
    else
      var init := FilterMap(s[..|s| - 1], f);
      match f(s[|s| - 1])
      case Some(b) => init + [b]
      case None => init
  }

  /** The positions in `s` of the entries `f` keeps. */
  function KeptIndices<A, B>(s: seq<A>, f: A -> Option<B>): seq<nat> {
    if s == [] then []
    else
      var n := |s| - 1;
      KeptIndices(s[..n], f) + (if f(s[n]).Some? then [n] else [])
  }

  /**
   * FilterMap is an order-preserving filter: its result is the images of the
   * entries at strictly increasing positions of `s`, and every entry at any other
   * position is one `f` drops.
   */
  lemma {:induction false} FilterMapIsOrderedFilter<A, B>(s: seq<A>, f: A -> Option<B>)
    ensures |KeptIndices(s, f)| == |FilterMap(s, f)|
    ensures forall k :: 0 <= k < |KeptIndices(s, f)| ==>
              KeptIndices(s, f)[k] < |s| && f(s[KeptIndices(s, f)[k]]) == Some(FilterMap(s, f)[k])
    ensures forall k, l :: 0 <= k < l < |KeptIndices(s, f)| ==> KeptIndices(s, f)[k] < KeptIndices(s, f)[l]
    ensures forall j :: 0 <= j < |s| && j !in KeptIndices(s, f) ==> f(s[j]).None?
  {
    if s != [] {
      var n := |s| - 1;
      FilterMapIsOrderedFilter(s[..n], f);
      assert forall j :: 0 <= j < n ==> s[..n][j] == s[j];
      var ks0 := KeptIndices(s[..n], f);
      var fm0 := FilterMap(s[..n], f);
      if f(s[n]).Some? {
        assert KeptIndices(s, f) == ks0 + [n];
        assert FilterMap(s, f) == fm0 + [f(s[n]).value];
      } else {
        assert KeptIndices(s, f) == ks0;
        assert FilterMap(s, f) == fm0;
      }
      forall j | 0 <= j < |s| && j !in KeptIndices(s, f)
        ensures f(s[j]).None?
      {
        if j < n {
          assert j !in ks0;
        }
      }
    }
  }

  /** Filtering a concatenation filters each part: kept entries never move across. */
  lemma {:induction false} FilterMapAppend<A, B>(a: seq<A>, b: seq<A>, f: A -> Option<B>)
    ensures FilterMap(a + b, f) == FilterMap(a, f) + FilterMap(b, f)
  {
    if b == [] {
      assert a + b == a;
    } else {
      var n := |b| - 1;
      assert (a + b)[..|a + b| - 1] == a + b[..n];
      assert (a + b)[|a + b| - 1] == b[n];
      FilterMapAppend(a, b[..n], f);
    }
  }

  /** The result is empty exactly when `f` drops every entry. */
  lemma {:induction false} FilterMapEmptyIff<A, B>(s: seq<A>, f: A -> Option<B>)
    ensures FilterMap(s, f) == [] <==> forall j :: 0 <= j < |s| ==> f(s[j]).None?
  {
    if s != [] {
      var n := |s| - 1;
      FilterMapEmptyIff(s[..n], f);
      assert forall j :: 0 <= j < n ==> s[..n][j] == s[j];
    }
  }

  /** When `f` drops nothing, nothing is lost. */
  lemma {:induction false} FilterMapKeepsAll<A, B>(s: seq<A>, f: A -> Option<B>)
    requires forall j :: 0 <= j < |s| ==> f(s[j]).Some?
    ensures |FilterMap(s, f)| == |s|
  {
    if s != [] {
      var n := |s| - 1;
      assert forall j :: 0 <= j < n ==> s[..n][j] == s[j];
      FilterMapKeepsAll(s[..n], f);
    }
  }

  /** The sanitiser's per-entry decision, as a function value. */
  function Cleaner(stripTags: string -> string): Value -> Option<Turn> {
    entry => CleanTurn(entry, stripTags)
  }

  /**
   * The sanitised history: the kept entries of `history`, in order, each with
   * role "user" or "assistant" and non-empty content.
   */
  function Sanitized(history: seq<Value>, stripTags: string -> string): (r: seq<Turn>)
    ensures |r| <= |history|
    ensures forall k :: 0 <= k < |r| ==> WellFormed(r[k])
  {
    var r := FilterMap(history, Cleaner(stripTags));
    FilterMapIsOrderedFilter(history, Cleaner(stripTags));
    r
  }

  /** The sanitisation loop: one pass over `history`, appending each kept turn. */
  method SanitizeHistory(history: seq<Value>, stripTags: string -> string) returns (clean: seq<Turn>)
    ensures clean == Sanitized(history, stripTags)
  {
    clean := [];
    for i := 0 to |history|
      invariant clean == FilterMap(history[..i], Cleaner(stripTags))
    {
      assert history[..i + 1][..i] == history[..i];
      var turn := history[i];
      var role := match IssetGet(turn, "role") case Some(v) => LowerAscii(PhpString(v)) case None => "";
      if role != "user" && role != "assistant" {
        continue;
      }
      var content := match IssetGet(turn, "content") case Some(v) => PhpString(v) case None => "";
      content := stripTags(content);
      if content == "" {
        continue;
      }
      clean := clean + [Turn(role, content)];
    }
    assert history[..|history|] == history;
  }

  /**
   * The sanitiser keeps the entries at strictly increasing positions of `history`,
   * each turned into its sanitised form, and skips every other entry.
   */
  lemma SanitizedIsOrderedFilter(history: seq<Value>, stripTags: string -> string)
    ensures |KeptIndices(history, Cleaner(stripTags))| == |Sanitized(history, stripTags)|
    ensures forall k :: 0 <= k < |Sanitized(history, stripTags)| ==>
              KeptIndices(history, Cleaner(stripTags))[k] < |history| &&
              CleanTurn(history[KeptIndices(history, Cleaner(stripTags))[k]], stripTags) == Some(Sanitized(history, stripTags)[k])
    ensures forall k, l :: 0 <= k < l < |Sanitized(history, stripTags)| ==>
              KeptIndices(history, Cleaner(stripTags))[k] < KeptIndices(history, Cleaner(stripTags))[l]
    ensures forall j :: 0 <= j < |history| && j !in KeptIndices(history, Cleaner(stripTags)) ==>
              CleanTurn(history[j], stripTags).None?
  {
    FilterMapIsOrderedFilter(history, Cleaner(stripTags));
  }

  /** Sanitising a concatenation sanitises each part. */
  lemma SanitizedAppend(a: seq<Value>, b: seq<Value>, stripTags: string -> string)
    ensures Sanitized(a + b, stripTags) == Sanitized(a, stripTags) + Sanitized(b, stripTags)
  {
    FilterMapAppend(a, b, Cleaner(stripTags));
  }

  /** The sanitised history is empty exactly when every entry is one the sanitiser skips. */
  lemma SanitizedEmptyIff(history: seq<Value>, stripTags: string -> string)
    ensures Sanitized(history, stripTags) == [] <==>
            forall j :: 0 <= j < |history| ==> CleanTurn(history[j], stripTags).None?
  {
    FilterMapEmptyIff(history, Cleaner(stripTags));
  }

  /** When no entry is skipped, the sanitised history is as long as the input. */
  lemma SanitizedKeepsAllValid(history: seq<Value>, stripTags: string -> string)
    requires forall j :: 0 <= j < |history| ==> CleanTurn(history[j], stripTags).Some?
    ensures |Sanitized(history, stripTags)| == |history|
  {
    FilterMapKeepsAll(history, Cleaner(stripTags));
  }

  /** A client history entry `{role: r, content: c}` with string fields. */
  function Entry(role: string, content: string): Value {
    Arr([("role", Str(role)), ("content", Str(content))])
  }

  /**
   * Role matching is case-insensitive: the entry `{role, content}` with string
   * fields is kept exactly when its lower-cased role is "user" or "assistant" and
   * its stripped content is non-empty, and the kept turn carries the lower-cased role.
   */
  lemma EntryKeptIff(role: string, content: string, stripTags: string -> string)
    ensures CleanTurn(Entry(role, content), stripTags) ==
            if HistoryRole(LowerAscii(role)) && stripTags(content) != ""
            then Some(Turn(LowerAscii(role), stripTags(content)))
            else None
  {
    var entries := Entry(role, content).entries;
    assert "role" != "content" by { assert "role"[0] != "content"[0]; }
    assert entries[1..] == [("content", Str(content))];
    assert Find(entries[1..], "content") == Some(Str(content));
    assert Find(entries, "content") == Find(entries[1..], "content");
    assert IssetGet(Entry(role, content), "role") == Some(Str(role));
    assert IssetGet(Entry(role, content), "content") == Some(Str(content));
  }

  /**
   * Any entry whose `role` field is a string `r`, whatever its key order and other
   * fields, is kept exactly when lower(r) is "user" or "assistant" and its stripped
   * content is non-empty, and is then kept with role lower(r).
   */
  lemma CleanTurnStringRole(entry: Value, r: string, stripTags: string -> string)
    requires IssetGet(entry, "role") == Some(Str(r))
    ensures CleanTurn(entry, stripTags) ==
            if HistoryRole(LowerAscii(r)) && stripTags(RawContentOf(entry)) != ""
            then Some(Turn(LowerAscii(r), stripTags(RawContentOf(entry))))
            else None
  {
  }

  /**
   * Key order and extra fields do not matter: `{content, role}` with a further
   * `name` field is sanitised exactly like `{role, content}`.
   */
  lemma KeyOrderIrrelevant(role: string, content: string, name: Value, stripTags: string -> string)
    ensures CleanTurn(Arr([("content", Str(content)), ("name", name), ("role", Str(role))]), stripTags) ==
            CleanTurn(Entry(role, content), stripTags)
  {
    var e := Arr([("content", Str(content)), ("name", name), ("role", Str(role))]);
    assert "role" != "content" by { assert "role"[0] != "content"[0]; }
    assert "role" != "name" by { assert "role"[0] != "name"[0]; }
    assert e.entries[1..][1..] == [("role", Str(role))];
    assert Find(e.entries[1..][1..], "role") == Some(Str(role));
    assert Find(e.entries[1..], "role") == Find(e.entries[1..][1..], "role");
    assert Find(e.entries, "role") == Find(e.entries[1..], "role");
    assert IssetGet(e, "role") == Some(Str(role));
    assert IssetGet(e, "content") == Some(Str(content));
    CleanTurnStringRole(e, role, stripTags);
    EntryKeptIff(role, content, stripTags);
  }

  /** "USER" is kept, stored as "user". */
  lemma UpperCaseRoleKept(content: string, stripTags: string -> string)
    requires stripTags(content) != ""
    ensures CleanTurn(Entry("USER", content), stripTags) == Some(Turn("user", stripTags(content)))
  {
    EntryKeptIff("USER", content, stripTags);
    assert LowerAscii("USER") == "user";
  }

  /** `{role: "admin", content: "x"}` is dropped, without error. */
  lemma AdminRoleDropped(stripTags: string -> string)
    ensures CleanTurn(Entry("admin", "x"), stripTags).None?
  {
    EntryKeptIff("admin", "x", stripTags);
    LowerAsciiUnchanged("admin");
  }

  /** A client can never smuggle in a system turn, in any letter case. */
  lemma SystemRoleDropped(entry: Value, stripTags: string -> string)
    requires entry.Arr? && Find(entry.entries, "role").Some?
    requires LowerAscii(PhpString(Find(entry.entries, "role").value)) == "system"
    ensures CleanTurn(entry, stripTags).None?
  {
  }

  /** An entry that is not an array, or has no role (missing or null), is dropped. */
  lemma RolelessEntryDropped(entry: Value, stripTags: string -> string)
    requires !entry.Arr? || Find(entry.entries, "role").None? || Find(entry.entries, "role") == Some(Null)
    ensures CleanTurn(entry, stripTags).None?
  {
  }

  /**
   * A role that is present but not a string is dropped: an integer casts to digits,
   * a boolean to "1" or "", an array to "Array", and none of these lower-cases to
   * "user" or "assistant".
   */
  lemma NonStringRoleDropped(entry: Value, stripTags: string -> string)
    requires IssetGet(entry, "role").Some? && !IssetGet(entry, "role").value.Str?
    ensures CleanTurn(entry, stripTags).None?
  {
    var v := IssetGet(entry, "role").value;
    var role := RoleOf(entry);
    assert role == LowerAscii(PhpString(v));
    if v.Arr? {
      assert LowerAscii("Array") == "array";
    } else if v.Int? {
      assert role[0] == LowerChar(IntToString(v.i)[0]);
      assert role[0] != 'u' && role[0] != 'a';
    }
    assert role != "user" && role != "assistant";
  }

  /** A sanitised turn written back as a history entry. */
  function Render(t: Turn): Value {
    Entry(t.role, t.content)
  }

  function RenderAll(ts: seq<Turn>): (r: seq<Value>)
    ensures |r| == |ts|
    ensures forall k :: 0 <= k < |ts| ==> r[k] == Render(ts[k])
  {
    if ts == [] then [] else RenderAll(ts[..|ts| - 1]) + [Render(ts[|ts| - 1])]
  }

  /**
   * A well-formed turn whose content tag stripping leaves alone survives the
   * sanitiser unchanged once written back as a history entry.
   */
  lemma CleanRendered(t: Turn, stripTags: string -> string)
    requires WellFormed(t) && stripTags(t.content) == t.content
    ensures CleanTurn(Render(t), stripTags) == Some(t)
  {
    HistoryRoleIsLower(t.role);
    EntryKeptIff(t.role, t.content, stripTags);
  }

  /** The two history roles are already in lower case. */
  lemma HistoryRoleIsLower(role: string)
    requires HistoryRole(role)
    ensures LowerAscii(role) == role
  {
    if role == "user" {
      LowerAsciiUnchanged("user");
    } else {
      LowerAsciiUnchanged("assistant");
    }
  }

  /** Writing such turns back as history entries and sanitising them gives them back. */
  lemma {:induction false} SanitizeRenderedIsIdentity(ts: seq<Turn>, stripTags: string -> string)
    requires forall k :: 0 <= k < |ts| ==> WellFormed(ts[k]) && stripTags(ts[k].content) == ts[k].content
    ensures Sanitized(RenderAll(ts), stripTags) == ts
  {
    if ts != [] {
      var n := |ts| - 1;
      var rs := RenderAll(ts);
      assert rs[..n] == RenderAll(ts[..n]);
      SanitizeRenderedIsIdentity(ts[..n], stripTags);
      CleanRendered(ts[n], stripTags);
      assert Cleaner(stripTags)(rs[|rs| - 1]) == Some(ts[n]);
      assert Sanitized(rs, stripTags) == Sanitized(rs[..n], stripTags) + [ts[n]];
      assert ts[..n] + [ts[n]] == ts;
    }
  }

  /**
   * Sanitising an already-sanitised history changes nothing, provided tag stripping
   * is itself idempotent (a property of `wp_strip_all_tags` that is not part of this
   * model, hence a hypothesis).
   */
  lemma ResanitizeIsIdentity(history: seq<Value>, stripTags: string -> string)
    requires forall s :: stripTags(stripTags(s)) == stripTags(s)
    ensures Sanitized(RenderAll(Sanitized(history, stripTags)), stripTags) == Sanitized(history, stripTags)
  {
    var clean := Sanitized(history, stripTags);
    SanitizedIsOrderedFilter(history, stripTags);
    forall k | 0 <= k < |clean|
      ensures stripTags(clean[k].content) == clean[k].content
    {
      var j := KeptIndices(history, Cleaner(stripTags))[k];
      assert clean[k].content == stripTags(RawContentOf(history[j]));
    }
    SanitizeRenderedIsIdentity(clean, stripTags);
  }
}
