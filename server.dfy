/**
 * The request shaping and wiring of cmd/server.go: the tag filter read from a listing request,
 * the store query built from it, the choice of notifier, and the one-shot run.
 */
module Server {
  import opened Wrappers
  import opened Strs
  import opened Model
  import opened Email
  import D = Dispatch
  import S = Storage

  /** A request's decoded query string: each parameter with all its values, in order. */
  type Values = map<string, seq<string>>

  /** `url.Values` indexing: the values of a parameter, none when it is absent. */
  function ValuesOf(v: Values, key: string): seq<string>
  {
    if key in v then v[key] else []
  }

  // ---------------------------------------------------------------- collectTags

  /** The trimmed, non-blank pieces of a list of comma-separated pieces. */
  function TrimmedPieces(parts: seq<string>): set<string>
    decreases |parts|
  {
    if |parts| == 0 then {}
    else
      var t := TrimSpace(parts[|parts| - 1]);
      TrimmedPieces(parts[..|parts| - 1]) + (if t == "" then {} else {t})
  }

  /** The tags one query value contributes. */
  function Pieces(raw: string): set<string>
  {
    TrimmedPieces(Split(raw, ','))
  }

  /** The tags a list of query values contributes. */
  function PiecesIn(vals: seq<string>): set<string>
    decreases |vals|
  {
    if |vals| == 0 then {}
    else PiecesIn(vals[..|vals| - 1]) + Pieces(vals[|vals| - 1])
  }

  /** The tag filter of a request: every piece of every `tag` and `tags` value; none for a nil request. */
  function TagSet(r: Option<Values>): set<string>
  {
    if r.None? then {} else PiecesIn(ValuesOf(r.value, "tag")) + PiecesIn(ValuesOf(r.value, "tags"))
  }

  /** A tag comes from a piece of the list exactly when it is that piece trimmed, and not blank. */
  lemma {:induction false} TrimmedPiecesSpec(parts: seq<string>, t: string)
    ensures t in TrimmedPieces(parts) <==> t != "" && exists i :: 0 <= i < |parts| && TrimSpace(parts[i]) == t
    decreases |parts|
  {
    if |parts| > 0 {
      var init := parts[..|parts| - 1];
      TrimmedPiecesSpec(init, t);
      if t in TrimmedPieces(parts) && t !in TrimmedPieces(init) {
        assert TrimSpace(parts[|parts| - 1]) == t;
      }
      if t != "" && exists i :: 0 <= i < |parts| && TrimSpace(parts[i]) == t {
        var i :| 0 <= i < |parts| && TrimSpace(parts[i]) == t;
        if i < |parts| - 1 {
          assert init[i] == parts[i];
        }
      }
    }
  }

  /** A tag comes from a list of values exactly when it comes from one of them. */
  lemma {:induction false} PiecesInSpec(vals: seq<string>, t: string)
    ensures t in PiecesIn(vals) <==> exists j :: 0 <= j < |vals| && t in Pieces(vals[j])
    decreases |vals|
  {
    if |vals| > 0 {
      var init := vals[..|vals| - 1];
      PiecesInSpec(init, t);
      if exists j :: 0 <= j < |vals| && t in Pieces(vals[j]) {
        var j :| 0 <= j < |vals| && t in Pieces(vals[j]);
        if j < |vals| - 1 {
          assert init[j] == vals[j];
        }
      }
    }
  }

  /** A value contributes `t` exactly when one of its comma-separated pieces trims to `t`, and `t` is not blank. */
  lemma PiecesSpec(raw: string, t: string)
    ensures t in Pieces(raw) <==> t != "" && exists i :: 0 <= i < |Split(raw, ',')| && TrimSpace(Split(raw, ',')[i]) == t
  {
    var parts := Split(raw, ',');
    TrimmedPiecesSpec(parts, t);
    if t in Pieces(raw) {
      assert t in TrimmedPieces(parts);
      assert t != "";
      var i :| 0 <= i < |parts| && TrimSpace(parts[i]) == t;
      assert 0 <= i < |Split(raw, ',')| && TrimSpace(Split(raw, ',')[i]) == t;
    }
  }

  /** A request filters on `t` exactly when one of its `tag` or `tags` values contributes `t`. */
  lemma TagSetSpec(v: Values, t: string)
    ensures t in TagSet(Some(v)) <==> exists raw :: (raw in ValuesOf(v, "tag") || raw in ValuesOf(v, "tags")) && t in Pieces(raw)
  {
    var a, b := ValuesOf(v, "tag"), ValuesOf(v, "tags");
    PiecesInSpec(a, t);
    PiecesInSpec(b, t);
    if exists raw :: (raw in a || raw in b) && t in Pieces(raw) {
      var raw :| (raw in a || raw in b) && t in Pieces(raw);
      if raw in a {
        var j :| 0 <= j < |a| && a[j] == raw;
      } else {
        var j :| 0 <= j < |b| && b[j] == raw;
      }
    }
  }

  /** Trimming never brings in a comma. */
  lemma TrimSpaceNoComma(p: string)
    requires ',' !in p
    ensures ',' !in TrimSpace(p)
  {
    TrimSpaceSplit(p);
  }

  /** Every tag of the filter is trimmed, not blank, and holds no comma. */
  lemma TagSetClean(r: Option<Values>, t: string)
    requires t in TagSet(r)
    ensures t != "" && TrimSpace(t) == t && ',' !in t
  {
    var v := r.value;
    TagSetSpec(v, t);
    var raw :| (raw in ValuesOf(v, "tag") || raw in ValuesOf(v, "tags")) && t in Pieces(raw);
    PiecesSpec(raw, t);
    var i :| 0 <= i < |Split(raw, ',')| && TrimSpace(Split(raw, ',')[i]) == t;
    SplitPiecesClean(raw, ',');
    TrimSpaceNoComma(Split(raw, ',')[i]);
    TrimSpaceIdempotent(Split(raw, ',')[i]);
  }

  /** Splitting a comma-joined list of comma-free tags gives the tags back. */
  lemma {:induction false} SplitJoined(tags: seq<string>)
    requires |tags| > 0
    requires forall i :: 0 <= i < |tags| ==> ',' !in tags[i]
    ensures Split(Join(tags, ","), ',') == tags
    decreases |tags|
  {
    if |tags| == 1 {
      SplitNoSep(tags[0], ',');
    } else {
      SplitJoined(tags[1..]);
      assert Join(tags, ",") == tags[0] + [','] + Join(tags[1..], ",");
      SplitCons(tags[0], ',', Join(tags[1..], ","));
      assert [tags[0]] + tags[1..] == tags;
    }
  }

  /** A value made of clean tags joined by commas contributes exactly those tags. */
  lemma PiecesOfJoined(tags: seq<string>)
    requires |tags| > 0
    requires forall i :: 0 <= i < |tags| ==> tags[i] != "" && TrimSpace(tags[i]) == tags[i] && ',' !in tags[i]
    ensures Pieces(Join(tags, ",")) == set t | t in tags
  {
    SplitJoined(tags);
    forall t ensures t in TrimmedPieces(tags) <==> t in tags {
      TrimmedPiecesSpec(tags, t);
    }
  }

  /** A request whose only filter parameter is one `tags` value filters on that value's pieces. */
  lemma OneTagsValue(raw: string)
    ensures TagSet(Some(map["tags" := [raw]])) == Pieces(raw)
  {
    var v: Values := map["tags" := [raw]];
    assert ValuesOf(v, "tag") == [] && ValuesOf(v, "tags") == [raw];
    assert [raw][..0] == [];
  }

  /** A client that sends its clean tags joined by commas in one `tags` value filters on exactly those tags. */
  lemma JoinedTagsRoundTrip(tags: seq<string>)
    requires |tags| > 0
    requires forall i :: 0 <= i < |tags| ==> tags[i] != "" && TrimSpace(tags[i]) == tags[i] && ',' !in tags[i]
    ensures TagSet(Some(map["tags" := [Join(tags, ",")]])) == set t | t in tags
  {
    OneTagsValue(Join(tags, ","));
    PiecesOfJoined(tags);
  }

  /** `add`: the pieces of one value joined to the set collected so far. */
  method AddPieces(raw: string, acc: set<string>) returns (r: set<string>)
    ensures r == acc + Pieces(raw)
  {
    var parts := Split(raw, ',');
    r := acc;
    var i := 0;
    while i < |parts|
      invariant 0 <= i <= |parts|
      invariant r == acc + TrimmedPieces(parts[..i])
    {
      assert parts[..i + 1][..i] == parts[..i];
      var trimmed := TrimSpace(parts[i]);
      if trimmed != "" {
        r := r + {trimmed};
      }
      i := i + 1;
    }
    assert parts[..i] == parts;
  }

  /** Adds the pieces of every value in `vals`. */
  method AddAll(vals: seq<string>, acc: set<string>) returns (r: set<string>)
    ensures r == acc + PiecesIn(vals)
  {
    r := acc;
    var i := 0;
    while i < |vals|
      invariant 0 <= i <= |vals|
      invariant r == acc + PiecesIn(vals[..i])
    {
      assert vals[..i + 1][..i] == vals[..i];
      r := AddPieces(vals[i], r);
      i := i + 1;
    }
    assert vals[..i] == vals;
  }

  /**
   * `collectTags`: the request's tag filter, each tag once, in no particular order (the source
   * copies them out of a Go map); empty (nil) when there are none.
   */
  method CollectTags(r: Option<Values>) returns (tags: seq<string>)
    ensures forall t :: t in tags <==> t in TagSet(r)
    ensures forall i, j :: 0 <= i < j < |tags| ==> tags[i] != tags[j]
  {
    if r.None? {
      return [];
    }
    var found := AddAll(ValuesOf(r.value, "tag"), {});
    found := AddAll(ValuesOf(r.value, "tags"), found);
    if |found| == 0 {
      return [];
    }
    tags := Elements(found);
  }

  /** `for tag := range set`: the set's elements, each once, in an order the set does not fix. */
  method Elements(found: set<string>) returns (tags: seq<string>)
    ensures forall t :: t in tags <==> t in found
    ensures forall i, j :: 0 <= i < j < |tags| ==> tags[i] != tags[j]
  {
    tags := [];
    var rest := found;
    while rest != {}
      invariant rest <= found
      invariant forall t :: t in tags <==> t in found && t !in rest
      invariant forall i, j :: 0 <= i < j < |tags| ==> tags[i] != tags[j]
      decreases |rest|
    {
      var t :| t in rest;
      assert t !in tags;
      tags := tags + [t];
      rest := rest - {t};
    }
  }

  // ---------------------------------------------------------------- buildJobQuery

  /** `buildJobQuery`: the listing window as given, filtered on the request's tags. */
  method BuildJobQuery(r: Option<Values>, limit: int, offset: int) returns (q: S.JobQuery)
    ensures q.limit == limit && q.offset == offset
    ensures r.None? ==> q.tags == []
    ensures forall t :: t in q.tags <==> t in TagSet(r)
    ensures forall i, j :: 0 <= i < j < |q.tags| ==> q.tags[i] != q.tags[j]
  {
    q := S.JobQuery(limit, offset, []);
    if r.None? {
      return;
    }
    var tags := CollectTags(r);
    if |tags| > 0 {
      q := q.(tags := tags);
    }
  }

  /**
   * The store's tag filter depends only on which tags a query holds, so the unspecified order of
   * the collected tags does not change the listing.
   */
  lemma FilterIgnoresOrder(j: Job, a: seq<string>, b: seq<string>)
    requires forall t :: t in a <==> t in b
    ensures S.MatchesTags(j, a) <==> S.MatchesTags(j, b)
  {
    if S.MatchesTags(j, a) {
      forall i | 0 <= i < |b| && b[i] != ""
        ensures j.normalizedTags.Some? && b[i] in j.normalizedTags.value && S.IsOne(j.normalizedTags.value[b[i]])
      {
        assert b[i] in a;
      }
    }
    if S.MatchesTags(j, b) {
      forall i | 0 <= i < |a| && a[i] != ""
        ensures j.normalizedTags.Some? && a[i] in j.normalizedTags.value && S.IsOne(j.normalizedTags.value[a[i]])
      {
        assert a[i] in b;
      }
    }
  }

  // ---------------------------------------------------------------- selectNotifier

  /** The notifier driver as compared: trimmed and lower-cased. */
  function NormalDriver(driver: string): string
  {
    Lower(TrimSpace(driver))
  }

  /**
   * `selectNotifier`: the subscription notifier over the store's subscriptions with the configured
   * e-mail settings, the SMTP client and no fallback; none when the driver turns notifications
   * off, is unknown, or the e-mail host or sender address is missing.
   */
  function SelectNotifier(driver: string, email: EmailConfig, subscriptions: Result<seq<Subscription>, string>, smtp: Sender): (n: Option<D.SubscriptionNotifier>)
    ensures n.Some? <==> NormalDriver(driver) in {"", "email"} && email.host != "" && email.from != ""
    ensures n.Some? ==>
      && n.value.subscriptions == Some(subscriptions) && n.value.emailCfg == email
      && n.value.sender.None? && n.value.smtp == smtp && n.value.fallback.None?
  {
    var d := NormalDriver(driver);
    if d == "" || d == "email" then
      if email.host == "" || email.from == "" then None
      else Some(D.SubscriptionNotifier(Some(subscriptions), email, None, smtp, None))
    else if d == "none" || d == "off" || d == "disabled" then None
    else None
  }

  /** Normalising the driver twice changes nothing. */
  lemma NormalDriverIdempotent(driver: string)
    ensures NormalDriver(NormalDriver(driver)) == NormalDriver(driver)
  {
    var t := TrimSpace(driver);
    LowerTrimCommute(Lower(t));
    LowerTrimCommute(t);
    TrimSpaceIdempotent(driver);
    LowerIdempotent(t);
  }

  /** The driver is read up to case and surrounding white space; the words that turn notifications off always do. */
  lemma SelectNotifierDrivers(driver: string, email: EmailConfig, subscriptions: Result<seq<Subscription>, string>, smtp: Sender)
    ensures SelectNotifier(driver, email, subscriptions, smtp) == SelectNotifier(NormalDriver(driver), email, subscriptions, smtp)
    ensures NormalDriver(driver) in {"none", "off", "disabled"} ==> SelectNotifier(driver, email, subscriptions, smtp).None?
  {
    NormalDriverIdempotent(driver);
  }

  /** A driver spelt with the dotted capital I still selects e-mail, as Go's lower-casing folds it to `i`. */
  lemma DottedCapitalSelectsEmail(email: EmailConfig, subscriptions: Result<seq<Subscription>, string>, smtp: Sender)
    requires email.host != "" && email.from != ""
    ensures SelectNotifier(" EMA\U{130}L ", email, subscriptions, smtp).Some?
  {
    LowerBeyondAscii();
  }

  // ---------------------------------------------------------------- runOnceManual

  /** What the application builder returned: whether it gave a cleanup function, and its error. */
  datatype Built = Built(hasCleanup: bool, err: Option<string>)

  /** The outcome of a manual run: created count and error, whether a cycle ran, whether cleanup ran. */
  datatype ManualRun = ManualRun(created: int, err: Option<string>, ranCycle: bool, cleanedUp: bool)

  /**
   * `runOnceManual`: a builder error is returned wrapped and no cycle runs; otherwise the
   * scheduler's `RunOnce` (here its result `created, err`) is returned as is. The cleanup runs on
   * the way out whenever the builder gave one.
   */
  function RunOnceManual(built: Built, created: int, err: Option<string>): (m: ManualRun)
    ensures m.cleanedUp <==> built.hasCleanup
    ensures m.ranCycle <==> built.err.None?
    ensures m.err.None? <==> built.err.None? && err.None?
    ensures built.err.Some? ==> m.created == 0 && m.err == Some("build app: " + built.err.value)
    ensures built.err.None? ==> m.created == created && m.err == err
  {
    if built.err.Some? then ManualRun(0, Some("build app: " + built.err.value), false, built.hasCleanup)
    else ManualRun(created, err, true, built.hasCleanup)
  }

  /** A build error always surfaces with the `build app: ` prefix, whatever the cycle would have done. */
  lemma RunOnceManualBuildError(built: Built, c1: int, e1: Option<string>, c2: int, e2: Option<string>)
    requires built.err.Some?
    ensures RunOnceManual(built, c1, e1) == RunOnceManual(built, c2, e2)
    ensures |RunOnceManual(built, c1, e1).err.value| > |built.err.value|
  {
  }
}
