/** Conditions of a compliance scan: the builder, and the update of a list of conditions in place. */
module Conditions {
  import opened Prelude

  /** Go's zero time, midnight of 1 January of the year 1. */
  const ZERO_TIME: Time := -62_135_596_800

  datatype Condition = Condition(ctype: string, status: string, lastUpdate: Time, lastTransition: Time,
                                 reason: string, message: string)

  const ZERO_CONDITION: Condition := Condition("", "", ZERO_TIME, ZERO_TIME, "", "")

  /** The first of the strings that is not empty. */
  function FirstOf(a: string, b: string, c: string): string {
    if a != "" then a else if b != "" then b else c
  }

  /** One requested update. */
  datatype Update = Update(ctype: string, status: string, reason: string, message: string, time: Time)

  /** The condition that an update makes out of the old one. */
  function Built(old_: Condition, u: Update): Condition {
    var status := FirstOf(u.status, old_.status, "Unknown");
    var reason := FirstOf(u.reason, old_.reason, "Unspecified");
    var message := FirstOf(u.message, old_.message, "No message given.");
    Condition(u.ctype, status,
              if reason != old_.reason || message != old_.message || old_.lastUpdate == ZERO_TIME then u.time
              else old_.lastUpdate,
              if status != old_.status || old_.lastTransition == ZERO_TIME then u.time else old_.lastTransition,
              reason, message)
  }

  /** What the condition made by an update says: what the update asks for, or else what was said
      before, or else a default. A time changes with what it is about, or if it was not set. */
  predicate Tells(c: Condition, before: Condition, u: Update) {
    && c.ctype == u.ctype
    && c.status == (if u.status != "" then u.status else if before.status != "" then before.status else "Unknown")
    && c.reason == (if u.reason != "" then u.reason else if before.reason != "" then before.reason else "Unspecified")
    && c.message ==
         (if u.message != "" then u.message else if before.message != "" then before.message else "No message given.")
    && (c.status == before.status && before.lastTransition != ZERO_TIME ==> c.lastTransition == before.lastTransition)
    && (c.status != before.status || before.lastTransition == ZERO_TIME ==> c.lastTransition == u.time)
    && (c.reason == before.reason && c.message == before.message && before.lastUpdate != ZERO_TIME ==>
          c.lastUpdate == before.lastUpdate)
    && (c.reason != before.reason || c.message != before.message || before.lastUpdate == ZERO_TIME ==>
          c.lastUpdate == u.time)
  }

  // ---------------------------------------------------------------- the builder

  class ConditionBuilder {
    var previous: Condition
    var status: string
    var conditionType: string
    var reason: string
    var message: string
    var time: Time

    /** `now` is the time of the call. */
    constructor (conditionType: string, now: Time)
      ensures Request() == Update(conditionType, "", "", "", now) && previous == ZERO_CONDITION
    {
      this.conditionType := conditionType;
      this.status, this.reason, this.message := "", "", "";
      this.time := now;
      this.previous := ZERO_CONDITION;
    }

    function Request(): Update
      reads this
    {
      Update(conditionType, status, reason, message, time)
    }

    /** The type of the old condition is replaced by the builder's. */
    method WithOldCondition(previous: Condition)
      modifies this`previous
      ensures this.previous == previous.(ctype := conditionType)
    {
      this.previous := previous.(ctype := conditionType);
    }

    method WithStatus(status: string)
      modifies this`status
      ensures this.status == status
    {
      this.status := status;
    }

    method WithReason(reason: string)
      modifies this`reason
      ensures this.reason == reason
    {
      this.reason := reason;
    }

    method WithMessage(message: string)
      modifies this`message
      ensures this.message == message
    {
      this.message := message;
    }

    method WithTime(time: Time)
      modifies this`time
      ensures this.time == time
    {
      this.time := time;
    }

    method Build() returns (c: Condition, updated: bool)
      ensures c == Built(previous, Request())
      ensures Tells(c, previous, Request())
      ensures updated <==> c != previous
    {
      c := previous;
      if c.lastTransition == ZERO_TIME { c := c.(lastTransition := time); }
      if c.lastUpdate == ZERO_TIME { c := c.(lastUpdate := time); }
      c := c.(ctype := conditionType);
      c := c.(status := FirstOf(status, c.status, "Unknown"));
      c := c.(reason := FirstOf(reason, c.reason, "Unspecified"));
      c := c.(message := FirstOf(message, c.message, "No message given."));
      if c.status != previous.status {
        c := c.(lastTransition := time);
      }
      if c.reason != previous.reason || c.message != previous.message {
        c := c.(lastUpdate := time);
      }
      updated := c != previous;
    }
  }

  // ---------------------------------------------------------------- lists of conditions

  function Find(cs: seq<Condition>, ctype: string): (i: nat)
    ensures i <= |cs| && (forall k :: 0 <= k < i ==> cs[k].ctype != ctype)
    ensures i < |cs| ==> cs[i].ctype == ctype
  {
    if cs == [] || cs[0].ctype == ctype then 0 else 1 + Find(cs[1..], ctype)
  }

  /** The list after an update: the condition of that type changes in its place, or a new one
      comes last. */
  function Updated(cs: seq<Condition>, u: Update): seq<Condition> {
    var i := Find(cs, u.ctype);
    if i < |cs| then cs[i := Built(cs[i], u)] else cs + [Built(ZERO_CONDITION, u)]
  }

  /** A Go slice of conditions: the first `len` elements of a backing array. */
  datatype Slice = Slice(data: array<Condition>, len: nat) {
    ghost predicate Valid()
    {
      len <= data.Length
    }

    function Value(): seq<Condition>
      requires Valid()
      reads data
    {
      data[..len]
    }
  }

  /** Appends in place while there is room, and to a larger copy otherwise. */
  method Append(s: Slice, c: Condition) returns (r: Slice)
    requires s.Valid()
    modifies s.data
    ensures r.Valid() && (r.data == s.data || fresh(r.data))
    ensures r.Value() == old(s.Value()) + [c]
  {
    if s.len < s.data.Length {
      s.data[s.len] := c;
      r := Slice(s.data, s.len + 1);
    } else {
      var spare: int := *;
      if spare < 0 { spare := 0; }
      ghost var value := s.Value();
      var data := new Condition[s.len + 1 + spare](i reads s.data =>
        if 0 <= i < s.len <= s.data.Length then s.data[i] else ZERO_CONDITION);
      data[s.len] := c;
      r := Slice(data, s.len + 1);
      assert forall i :: 0 <= i < s.len ==> data[i] == value[i];
    }
  }

  /** Updates the condition of one type in place, or appends it. */
  method UpdateConditions(s: Slice, ctype: string, status: string, reason: string, message: string, time: Time)
    returns (r: Slice)
    requires s.Valid()
    modifies s.data
    ensures r.Valid() && (r.data == s.data || fresh(r.data))
    ensures old(Find(s.Value(), ctype)) < s.len ==> r == s
    ensures r.Value() == Updated(old(s.Value()), Update(ctype, status, reason, message, time))
  {
    var builder := new ConditionBuilder(ctype, time);
    builder.WithStatus(status);
    builder.WithReason(reason);
    builder.WithMessage(message);
    builder.WithTime(time);
    ghost var cs := s.Value();
    var i := 0;
    while i < s.len
      invariant 0 <= i <= s.len && i <= Find(cs, ctype)
      invariant s.Value() == cs
    {
      if s.data[i].ctype == ctype {
        assert Find(cs, ctype) == i by { assert cs[i].ctype == ctype; }
        builder.WithOldCondition(s.data[i]);
        var c, _ := builder.Build();
        s.data[i] := c;
        return s;
      }
      assert cs[i].ctype != ctype;
      i := i + 1;
    }
    var c, _ := builder.Build();
    r := Append(s, c);
  }
}

/** What a list of conditions means, after any sequence of updates. */
module ConditionHistory {
  import opened Prelude
  import opened Conditions

  /** The list that a sequence of updates builds from nothing. */
  function Replay(us: seq<Update>): seq<Condition> {
    if us == [] then [] else Updated(Replay(us[..|us| - 1]), us[|us| - 1])
  }

  predicate Proper(u: Update) {
    u.status != "" && u.reason != "" && u.message != "" && u.time != ZERO_TIME
  }

  /** The updates of one type, in their order. */
  function OfType(us: seq<Update>, ctype: string): seq<Update> {
    if us == [] then []
    else OfType(us[..|us| - 1], ctype) + if us[|us| - 1].ctype == ctype then [us[|us| - 1]] else []
  }

  /** The types in the order in which they first occur. */
  function Types(us: seq<Update>): seq<string> {
    if us == [] then []
    else
      var ts := Types(us[..|us| - 1]);
      if us[|us| - 1].ctype in ts then ts else ts + [us[|us| - 1].ctype]
  }

  predicate SameText(a: Update, b: Update) { a.reason == b.reason && a.message == b.message }

  predicate StatusChangesAt(vs: seq<Update>, k: nat)
    requires k < |vs|
  {
    k == 0 || vs[k].status != vs[k - 1].status
  }

  predicate TextChangesAt(vs: seq<Update>, k: nat)
    requires k < |vs|
  {
    k == 0 || !SameText(vs[k], vs[k - 1])
  }

  /** `t` is the time of the last update in `vs` that changed the status. */
  ghost predicate LastStatusChange(vs: seq<Update>, t: Time) {
    exists k: nat :: k < |vs| && vs[k].time == t && StatusChangesAt(vs, k)
      && forall j :: k < j < |vs| ==> !StatusChangesAt(vs, j)
  }

  /** `t` is the time of the last update in `vs` that changed the reason or the message. */
  ghost predicate LastTextChange(vs: seq<Update>, t: Time) {
    exists k: nat :: k < |vs| && vs[k].time == t && TextChangesAt(vs, k)
      && forall j :: k < j < |vs| ==> !TextChangesAt(vs, j)
  }

  /** `c` is what the updates `vs`, all of one type, amount to. */
  ghost predicate Means(c: Condition, vs: seq<Update>) {
    && vs != []
    && var last := vs[|vs| - 1];
    && c.status == last.status && c.reason == last.reason && c.message == last.message
    && LastStatusChange(vs, c.lastTransition) && LastTextChange(vs, c.lastUpdate)
    && c.lastTransition != ZERO_TIME && c.lastUpdate != ZERO_TIME
  }

  lemma FirstUpdateMeans(u: Update)
    requires Proper(u)
    ensures Means(Built(ZERO_CONDITION, u), [u])
  {
  }

  lemma ChangesStay(vs: seq<Update>, u: Update, i: nat)
    requires i < |vs|
    ensures StatusChangesAt(vs + [u], i) == StatusChangesAt(vs, i)
    ensures TextChangesAt(vs + [u], i) == TextChangesAt(vs, i)
  {
    var ws := vs + [u];
    assert ws[i] == vs[i] && (i > 0 ==> ws[i - 1] == vs[i - 1]);
  }

  /** An update that does not change the status leaves the last change where it was. */
  lemma StatusChangeStays(vs: seq<Update>, u: Update, t: Time)
    requires LastStatusChange(vs, t) && u.status == vs[|vs| - 1].status
    ensures LastStatusChange(vs + [u], t)
  {
    var ws := vs + [u];
    var k: nat :| k < |vs| && vs[k].time == t && StatusChangesAt(vs, k)
      && forall j :: k < j < |vs| ==> !StatusChangesAt(vs, j);
    ChangesStay(vs, u, k);
    forall j | k < j < |ws| ensures !StatusChangesAt(ws, j) {
      if j < |vs| { ChangesStay(vs, u, j); }
    }
    assert ws[k].time == t;
  }

  lemma TextChangeStays(vs: seq<Update>, u: Update, t: Time)
    requires LastTextChange(vs, t) && SameText(u, vs[|vs| - 1])
    ensures LastTextChange(vs + [u], t)
  {
    var ws := vs + [u];
    var k: nat :| k < |vs| && vs[k].time == t && TextChangesAt(vs, k)
      && forall j :: k < j < |vs| ==> !TextChangesAt(vs, j);
    ChangesStay(vs, u, k);
    forall j | k < j < |ws| ensures !TextChangesAt(ws, j) {
      if j < |vs| { ChangesStay(vs, u, j); }
    }
    assert ws[k].time == t;
  }

  lemma NextStatus(c: Condition, vs: seq<Update>, u: Update)
    requires Proper(u) && Means(c, vs)
    ensures LastStatusChange(vs + [u], Built(c, u).lastTransition)
  {
    if u.status == c.status {
      StatusChangeStays(vs, u, c.lastTransition);
    } else {
      assert (vs + [u])[|vs|].time == u.time && StatusChangesAt(vs + [u], |vs|);
    }
  }

  lemma NextText(c: Condition, vs: seq<Update>, u: Update)
    requires Proper(u) && Means(c, vs)
    ensures LastTextChange(vs + [u], Built(c, u).lastUpdate)
  {
    if u.reason == c.reason && u.message == c.message {
      TextChangeStays(vs, u, c.lastUpdate);
    } else {
      assert (vs + [u])[|vs|].time == u.time && TextChangesAt(vs + [u], |vs|);
    }
  }

  lemma NextUpdateMeans(c: Condition, vs: seq<Update>, u: Update)
    requires Proper(u) && Means(c, vs)
    ensures Means(Built(c, u), vs + [u])
  {
    NextStatus(c, vs, u);
    NextText(c, vs, u);
  }

  ghost predicate Represents(cs: seq<Condition>, us: seq<Update>) {
    var ts := Types(us);
    && |cs| == |ts|
    && (forall k :: 0 <= k < |cs| ==> cs[k].ctype == ts[k])
    && (forall k :: 0 <= k < |cs| ==> Means(cs[k], OfType(us, cs[k].ctype)))
  }

  lemma {:induction false} TypesAreDistinct(us: seq<Update>)
    ensures forall i, j :: 0 <= i < j < |Types(us)| ==> Types(us)[i] != Types(us)[j]
    ensures forall t :: t in Types(us) <==> OfType(us, t) != []
  {
    if us != [] {
      TypesAreDistinct(us[..|us| - 1]);
    }
  }

  lemma AppendedUpdate(us: seq<Update>, u: Update, ctype: string)
    ensures OfType(us + [u], ctype) == if u.ctype == ctype then OfType(us, ctype) + [u] else OfType(us, ctype)
    ensures Types(us + [u]) == if u.ctype in Types(us) then Types(us) else Types(us) + [u.ctype]
  {
  }

  /** A condition that was there before the update, and may be the one that it changes. */
  lemma OldMeansAfter(cs: seq<Condition>, us: seq<Update>, u: Update, k: nat)
    requires Represents(cs, us) && Proper(u) && k < |cs|
    ensures Means(Updated(cs, u)[k], OfType(us + [u], cs[k].ctype))
    ensures Updated(cs, u)[k].ctype == cs[k].ctype
  {
    AppendedUpdate(us, u, cs[k].ctype);
    if cs[k].ctype == u.ctype {
      TypesAreDistinct(us);
      assert Types(us)[k] == u.ctype && Types(us)[Find(cs, u.ctype)] == u.ctype;
      NextUpdateMeans(cs[k], OfType(us, u.ctype), u);
    } else {
      OthersUntouched(cs, u, k);
    }
  }

  lemma NewMeansAfter(us: seq<Update>, u: Update)
    requires Proper(u) && u.ctype !in Types(us)
    ensures Means(Built(ZERO_CONDITION, u), OfType(us + [u], u.ctype))
  {
    TypesAreDistinct(us);
    AppendedUpdate(us, u, u.ctype);
    FirstUpdateMeans(u);
  }

  lemma FoundTypes(cs: seq<Condition>, us: seq<Update>, u: Update)
    requires Represents(cs, us)
    ensures u.ctype in Types(us) <==> Find(cs, u.ctype) < |cs|
    ensures Types(us + [u]) == if Find(cs, u.ctype) < |cs| then Types(us) else Types(us) + [u.ctype]
  {
    var i, ts := Find(cs, u.ctype), Types(us);
    AppendedUpdate(us, u, u.ctype);
    if i < |cs| {
      assert ts[i] == u.ctype;
    } else {
      assert forall k :: 0 <= k < |ts| ==> ts[k] == cs[k].ctype;
    }
  }

  lemma OldRepresents(cs: seq<Condition>, us: seq<Update>, u: Update)
    requires Represents(cs, us) && Proper(u)
    ensures var cs' := Updated(cs, u);
            forall k :: 0 <= k < |cs| ==> Means(cs'[k], OfType(us + [u], cs'[k].ctype)) && cs'[k].ctype == Types(us)[k]
  {
    var cs' := Updated(cs, u);
    forall k | 0 <= k < |cs| ensures Means(cs'[k], OfType(us + [u], cs'[k].ctype)) && cs'[k].ctype == Types(us)[k] {
      OldMeansAfter(cs, us, u, k);
    }
  }

  lemma RepresentsOneMore(cs: seq<Condition>, us: seq<Update>, c: Condition)
    requires |Types(us)| == |cs| + 1 && Types(us)[|cs|] == c.ctype
    requires forall k :: 0 <= k < |cs| ==> cs[k].ctype == Types(us)[k] && Means(cs[k], OfType(us, cs[k].ctype))
    requires Means(c, OfType(us, c.ctype))
    ensures Represents(cs + [c], us)
  {
  }

  lemma InPlaceRepresents(cs: seq<Condition>, us: seq<Update>, u: Update)
    requires Represents(cs, us) && Proper(u) && Find(cs, u.ctype) < |cs|
    ensures Represents(Updated(cs, u), us + [u])
  {
    FoundTypes(cs, us, u);
    OldRepresents(cs, us, u);
  }

  lemma AppendRepresents(cs: seq<Condition>, us: seq<Update>, u: Update)
    requires Represents(cs, us) && Proper(u) && Find(cs, u.ctype) == |cs|
    ensures Represents(Updated(cs, u), us + [u])
  {
    FoundTypes(cs, us, u);
    NewMeansAfter(us, u);
    forall k | 0 <= k < |cs| ensures Means(cs[k], OfType(us + [u], cs[k].ctype)) {
      AppendedUpdate(us, u, cs[k].ctype);
    }
    RepresentsOneMore(cs, us + [u], Built(ZERO_CONDITION, u));
  }

  lemma UpdateRepresents(cs: seq<Condition>, us: seq<Update>, u: Update)
    requires Represents(cs, us) && Proper(u)
    ensures Represents(Updated(cs, u), us + [u])
  {
    if Find(cs, u.ctype) < |cs| { InPlaceRepresents(cs, us, u); } else { AppendRepresents(cs, us, u); }
  }

  /** After any sequence of proper updates there is exactly one condition for every type, in the
      order of the first updates; it carries the latest status and text, the time of the last
      change of the status, and the time of the last change of the text. */
  lemma {:induction false} ReplayRepresents(us: seq<Update>)
    requires forall u :: u in us ==> Proper(u)
    ensures Represents(Replay(us), us)
    ensures forall i, j :: 0 <= i < j < |Replay(us)| ==> Replay(us)[i].ctype != Replay(us)[j].ctype
  {
    if us != [] {
      var init, u := us[..|us| - 1], us[|us| - 1];
      ReplayRepresents(init);
      UpdateRepresents(Replay(init), init, u);
      assert init + [u] == us;
    }
    TypesAreDistinct(us);
  }

  /** An update leaves every condition of another type as and where it is. */
  lemma OthersUntouched(cs: seq<Condition>, u: Update, k: nat)
    requires k < |cs| && cs[k].ctype != u.ctype
    ensures k < |Updated(cs, u)| && Updated(cs, u)[k] == cs[k]
  {
  }

  /** Repeating an update, even later, changes nothing. */
  lemma RepeatedUpdateIsNoOp(cs: seq<Condition>, u: Update, later: Time)
    requires u.time != ZERO_TIME
    ensures Updated(Updated(cs, u), u.(time := later)) == Updated(cs, u)
  {
    var cs' := Updated(cs, u);
    var i := Find(cs, u.ctype);
    assert cs'[i].ctype == u.ctype;
    assert forall k :: 0 <= k < i ==> cs'[k].ctype != u.ctype;
    assert Find(cs', u.ctype) == i;
    assert Built(cs'[i], u.(time := later)) == cs'[i];
  }
}
