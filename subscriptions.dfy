/**
 * The subscription service of internal/subscription/service.go: it normalises and validates a
 * subscription request (address, channel, tags) and hands the result to the store.
 */
module Subscriptions {
  import opened Wrappers
  import opened Strs
  import opened Model
  import P = Processor

  /** The configured channels and tag candidates. */
  datatype Config = Config(allowedChannels: seq<string>, tagCandidates: seq<string>)

  /** A request as submitted by the front end. */
  datatype Request = Request(email: string, channel: string, tags: seq<string>)

  datatype CreateError =
    | EmailRequired
    | InvalidEmail(address: string)
    | UnsupportedChannel(channel: string)
    | UnknownTag(tag: string)
    | StoreFailed(message: string)

  /**
   * The service: the allowed channels, the tag lookup from lower-case key to canonical spelling, the
   * address check of section 3.4 of RFC 5322 (`mail.ParseAddress`), and the store's insert
   * (`Some(message)` is a failure).
   */
  datatype Service = Service(
    channels: set<string>,
    tags: map<string, string>,
    validAddress: string -> bool,
    store: Subscription -> Option<string>)

  /** The lower-case, trimmed form under which channels and tags are compared. */
  function Key(s: string): string
  {
    Lower(TrimSpace(s))
  }

  // ---------------------------------------------------------------- NewService

  /** The non-blank keys of the configured channels. */
  function ChannelsOf(chs: seq<string>): set<string>
    decreases |chs|
  {
    if |chs| == 0 then {}
    else ChannelsOf(chs[..|chs| - 1]) + (if Key(chs[|chs| - 1]) != "" then {Key(chs[|chs| - 1])} else {})
  }

  /** The allowed channels: the configured ones, or e-mail alone when none is configured. */
  function AllowedChannels(chs: seq<string>): set<string>
  {
    if ChannelsOf(chs) == {} then {"email"} else ChannelsOf(chs)
  }

  /** The configured set holds the key of every non-blank channel, and nothing else. */
  lemma {:induction false} ChannelsOfSpec(chs: seq<string>)
    ensures forall i :: 0 <= i < |chs| && Key(chs[i]) != "" ==> Key(chs[i]) in ChannelsOf(chs)
    ensures forall x :: x in ChannelsOf(chs) ==> x != "" && exists i :: 0 <= i < |chs| && Key(chs[i]) == x
    decreases |chs|
  {
    if |chs| > 0 {
      var init := chs[..|chs| - 1];
      var last := Key(chs[|chs| - 1]);
      ChannelsOfSpec(init);
      assert ChannelsOf(chs) == ChannelsOf(init) + (if last != "" then {last} else {});
      forall i | 0 <= i < |init|
        ensures init[i] == chs[i]
      {
      }
      forall x | x in ChannelsOf(chs)
        ensures x != "" && exists i :: 0 <= i < |chs| && Key(chs[i]) == x
      {
        if x !in ChannelsOf(init) {
          assert Key(chs[|chs| - 1]) == x;
        }
      }
    }
  }

  /** The allowed set is never empty, never holds the blank channel, and is e-mail alone when nothing non-blank is configured. */
  lemma AllowedChannelsSpec(chs: seq<string>)
    ensures AllowedChannels(chs) != {} && "" !in AllowedChannels(chs)
    ensures forall i :: 0 <= i < |chs| && Key(chs[i]) != "" ==> Key(chs[i]) in AllowedChannels(chs)
    ensures (forall i :: 0 <= i < |chs| ==> Key(chs[i]) == "") ==> AllowedChannels(chs) == {"email"}
    ensures forall x :: x in AllowedChannels(chs) ==> x == "email" || exists i :: 0 <= i < |chs| && Key(chs[i]) == x
  {
    ChannelsOfSpec(chs);
  }

  /** `NewService`: the allowed channel set and the tag lookup, built candidate by candidate. */
  method NewService(cfg: Config, validAddress: string -> bool, store: Subscription -> Option<string>) returns (s: Service)
    ensures s.channels == AllowedChannels(cfg.allowedChannels)
    ensures s.tags == P.TagLookupOf(cfg.tagCandidates)
    ensures s.validAddress == validAddress && s.store == store
  {
    var channels := CollectChannels(cfg.allowedChannels);
    if channels == {} {
      channels := {"email"};
    }
    var lookup := CollectTagLookup(cfg.tagCandidates);
    s := Service(channels, lookup, validAddress, store);
  }

  /** The channel loop of `NewService`. */
  method CollectChannels(chs: seq<string>) returns (channels: set<string>)
    ensures channels == ChannelsOf(chs)
  {
    channels := {};
    var i := 0;
    while i < |chs|
      invariant 0 <= i <= |chs|
      invariant channels == ChannelsOf(chs[..i])
    {
      assert chs[..i + 1][..i] == chs[..i];
      var trimmed := Lower(TrimSpace(chs[i]));
      if trimmed != "" {
        channels := channels + {trimmed};
      }
      i := i + 1;
    }
    assert chs[..|chs|] == chs;
  }

  /** The tag-candidate loop of `NewService`. */
  method CollectTagLookup(candidates: seq<string>) returns (lookup: map<string, string>)
    ensures lookup == P.TagLookupOf(candidates)
  {
    lookup := map[];
    var j := 0;
    while j < |candidates|
      invariant 0 <= j <= |candidates|
      invariant lookup == P.TagLookupOf(candidates[..j])
    {
      assert candidates[..j + 1][..j] == candidates[..j];
      var trimmed := TrimSpace(candidates[j]);
      if trimmed != "" {
        lookup := lookup[Lower(trimmed) := trimmed];
      }
      j := j + 1;
    }
    assert candidates[..|candidates|] == candidates;
  }

  // ---------------------------------------------------------------- Create

  /** The channel a request asks for: its key, with blank meaning e-mail. */
  function NormalChannel(channel: string): string
  {
    if Key(channel) == "" then "email" else Key(channel)
  }

  /** A tag the service accepts: blank (skipped), a known candidate, or anything when there are no candidates. */
  predicate Known(lookup: map<string, string>, tag: string)
  {
    Key(tag) == "" || Key(tag) in lookup || |lookup| == 0
  }

  /** The spelling a tag is stored under: the candidate's, or the trimmed tag itself when there is none. */
  function Canonical(lookup: map<string, string>, tag: string): string
  {
    var c := if Key(tag) in lookup then lookup[Key(tag)] else "";
    if c == "" then TrimSpace(tag) else c
  }

  /** One turn of the tag loop over the stored tag names: skip a blank tag, refuse an unknown one, otherwise add its canonical spelling. */
  function TagStep(lookup: map<string, string>, acc: set<string>, tag: string): (r: Result<set<string>, CreateError>)
    ensures r.Ok? <==> Known(lookup, tag)
    ensures r.Err? ==> r.error == UnknownTag(tag)
    ensures r.Ok? ==> r.value == acc + (if Key(tag) != "" then {Canonical(lookup, tag)} else {})
  {
    if Key(tag) == "" then Ok(acc)
    else if Key(tag) !in lookup && |lookup| > 0 then Err(UnknownTag(tag))
    else Ok(acc + {Canonical(lookup, tag)})
  }

  /** The tag loop from the names gathered so far, stopping at the first unknown tag. */
  function TagsFrom(lookup: map<string, string>, acc: set<string>, tags: seq<string>): Result<set<string>, CreateError>
    decreases |tags|
  {
    if |tags| == 0 then Ok(acc)
    else match TagStep(lookup, acc, tags[0])
      case Err(e) => Err(e)
      case Ok(next) => TagsFrom(lookup, next, tags[1..])
  }

  /** Every tag of the request is known. */
  predicate AllKnown(lookup: map<string, string>, tags: seq<string>)
    decreases |tags|
  {
    |tags| == 0 || (Known(lookup, tags[0]) && AllKnown(lookup, tags[1..]))
  }

  /** The position of the first unknown tag. */
  function FirstUnknown(lookup: map<string, string>, tags: seq<string>): (i: nat)
    requires !AllKnown(lookup, tags)
    ensures i < |tags| && !Known(lookup, tags[i])
    decreases |tags|
  {
    if !Known(lookup, tags[0]) then 0 else 1 + FirstUnknown(lookup, tags[1..])
  }

  /** Every tag before the first unknown one is known. */
  lemma {:induction false} FirstUnknownIsFirst(lookup: map<string, string>, tags: seq<string>, j: nat)
    requires !AllKnown(lookup, tags) && j < FirstUnknown(lookup, tags)
    ensures Known(lookup, tags[j])
    decreases |tags|
  {
    if j > 0 {
      FirstUnknownIsFirst(lookup, tags[1..], j - 1);
    }
  }

  /** AllKnown means known at every position. */
  lemma {:induction false} AllKnownSpec(lookup: map<string, string>, tags: seq<string>)
    ensures AllKnown(lookup, tags) <==> forall i :: 0 <= i < |tags| ==> Known(lookup, tags[i])
    decreases |tags|
  {
    if |tags| > 0 {
      AllKnownSpec(lookup, tags[1..]);
      if !AllKnown(lookup, tags) {
        var i := FirstUnknown(lookup, tags);
        assert !Known(lookup, tags[i]);
      } else {
        forall i | 0 <= i < |tags|
          ensures Known(lookup, tags[i])
        {
          if i > 0 {
            assert tags[i] == tags[1..][i - 1];
          }
        }
      }
    }
  }

  /** The tags succeed exactly when all are known; a failure names the first unknown tag, untrimmed. */
  lemma {:induction false} TagsFromOutcome(lookup: map<string, string>, acc: set<string>, tags: seq<string>)
    ensures TagsFrom(lookup, acc, tags).Ok? <==> AllKnown(lookup, tags)
    ensures TagsFrom(lookup, acc, tags).Err? ==> TagsFrom(lookup, acc, tags).error == UnknownTag(tags[FirstUnknown(lookup, tags)])
    decreases |tags|
  {
    if |tags| > 0 {
      var step := TagStep(lookup, acc, tags[0]);
      if step.Ok? {
        assert TagsFrom(lookup, acc, tags) == TagsFrom(lookup, step.value, tags[1..]);
        TagsFromOutcome(lookup, step.value, tags[1..]);
      }
    }
  }

  /** The tag loop only adds to the names gathered so far. */
  lemma {:induction false} TagsFromGrows(lookup: map<string, string>, acc: set<string>, tags: seq<string>)
    requires TagsFrom(lookup, acc, tags).Ok?
    ensures acc <= TagsFrom(lookup, acc, tags).value
    decreases |tags|
  {
    if |tags| > 0 {
      var next := TagStep(lookup, acc, tags[0]).value;
      assert TagsFrom(lookup, acc, tags) == TagsFrom(lookup, next, tags[1..]);
      TagsFromGrows(lookup, next, tags[1..]);
    }
  }

  /** The stored names include the canonical spelling of every non-blank tag. */
  lemma {:induction false} TagsFromHas(lookup: map<string, string>, acc: set<string>, tags: seq<string>)
    requires TagsFrom(lookup, acc, tags).Ok?
    ensures forall i :: 0 <= i < |tags| && Key(tags[i]) != "" ==> Canonical(lookup, tags[i]) in TagsFrom(lookup, acc, tags).value
    decreases |tags|
  {
    if |tags| > 0 {
      var next := TagStep(lookup, acc, tags[0]).value;
      var rest := tags[1..];
      var all := TagsFrom(lookup, acc, tags).value;
      assert TagsFrom(lookup, acc, tags) == TagsFrom(lookup, next, rest);
      assert next <= all by {
        TagsFromGrows(lookup, next, rest);
      }
      assert forall i :: 0 <= i < |rest| && Key(rest[i]) != "" ==> Canonical(lookup, rest[i]) in all by {
        TagsFromHas(lookup, next, rest);
      }
      forall i | 0 <= i < |tags| && Key(tags[i]) != ""
        ensures Canonical(lookup, tags[i]) in all
      {
        if i > 0 {
          assert tags[i] == rest[i - 1];
        }
      }
    }
  }

  /** The stored names are only the gathered ones and the canonical spellings of non-blank tags. */
  lemma {:induction false} TagsFromOnly(lookup: map<string, string>, acc: set<string>, tags: seq<string>)
    requires TagsFrom(lookup, acc, tags).Ok?
    ensures forall k :: k in TagsFrom(lookup, acc, tags).value && k !in acc ==>
      exists i :: 0 <= i < |tags| && Key(tags[i]) != "" && Canonical(lookup, tags[i]) == k
    decreases |tags|
  {
    if |tags| > 0 {
      var next := TagStep(lookup, acc, tags[0]).value;
      var rest := tags[1..];
      assert TagsFrom(lookup, acc, tags) == TagsFrom(lookup, next, rest);
      TagsFromOnly(lookup, next, rest);
      forall k | k in TagsFrom(lookup, acc, tags).value && k !in acc
        ensures exists i :: 0 <= i < |tags| && Key(tags[i]) != "" && Canonical(lookup, tags[i]) == k
      {
        if k in next {
          assert Key(tags[0]) != "" && Canonical(lookup, tags[0]) == k;
        } else {
          var i :| 0 <= i < |rest| && Key(rest[i]) != "" && Canonical(lookup, rest[i]) == k;
          assert rest[i] == tags[i + 1];
        }
      }
    }
  }

  /** The loop's step: the tags from position `i` are the step on `tags[i]`, then the tags after it. */
  lemma TagsFromAt(lookup: map<string, string>, acc: set<string>, tags: seq<string>, i: nat)
    requires i < |tags|
    ensures TagsFrom(lookup, acc, tags[i..]) ==
      match TagStep(lookup, acc, tags[i])
      case Err(e) => Err(e)
      case Ok(next) => TagsFrom(lookup, next, tags[i + 1..])
  {
    assert tags[i..][0] == tags[i] && tags[i..][1..] == tags[i + 1..];
  }

  /** The stored tag map: every gathered name set to true. */
  function TrueTags(names: set<string>): (m: JsonMap)
    ensures m.Keys == names
  {
    map k | k in names :: JBool(true)
  }

  /** With candidates configured, every known non-blank tag is stored under a candidate's trimmed spelling, which has the tag's own key. */
  lemma CanonicalIsCandidate(candidates: seq<string>, tag: string)
    requires |P.TagLookupOf(candidates)| > 0 && Key(tag) != "" && Known(P.TagLookupOf(candidates), tag)
    ensures exists i :: 0 <= i < |candidates| && TrimSpace(candidates[i]) == Canonical(P.TagLookupOf(candidates), tag)
    ensures Key(Canonical(P.TagLookupOf(candidates), tag)) == Key(tag)
  {
    P.TagLookupValues(candidates);
    var v := P.TagLookupOf(candidates)[Key(tag)];
    var i :| 0 <= i < |candidates| && TrimSpace(candidates[i]) == v;
    TrimSpaceIdempotent(candidates[i]);
  }

  /** Everything `Create` checks before the store is called, and the subscription it would store. */
  function Validate(s: Service, req: Request): Result<Subscription, CreateError>
  {
    var email := TrimSpace(req.email);
    if email == "" then Err(EmailRequired)
    else if !s.validAddress(email) then Err(InvalidEmail(email))
    else
      var channel := NormalChannel(req.channel);
      if channel !in s.channels then Err(UnsupportedChannel(channel))
      else match TagsFrom(s.tags, {}, req.tags)
        case Err(e) => Err(e)
        case Ok(names) => Ok(Subscription(email, channel, TrueTags(names)))
  }

  /** `Service.Create`: validate, then store; a store failure is passed through. */
  function CreateSpec(s: Service, req: Request): Result<Subscription, CreateError>
  {
    match Validate(s, req)
    case Err(e) => Err(e)
    case Ok(sub) => if s.store(sub).Some? then Err(StoreFailed(s.store(sub).value)) else Ok(sub)
  }

  /** The checks in order: a blank address, then a bad address, then the channel, then the first unknown tag. */
  lemma ValidateErrors(s: Service, req: Request)
    ensures TrimSpace(req.email) == "" ==> Validate(s, req) == Err(EmailRequired)
    ensures TrimSpace(req.email) != "" && !s.validAddress(TrimSpace(req.email)) ==>
      Validate(s, req) == Err(InvalidEmail(TrimSpace(req.email)))
    ensures TrimSpace(req.email) != "" && s.validAddress(TrimSpace(req.email)) && NormalChannel(req.channel) !in s.channels ==>
      Validate(s, req) == Err(UnsupportedChannel(NormalChannel(req.channel)))
    ensures (TrimSpace(req.email) != "" && s.validAddress(TrimSpace(req.email)) && NormalChannel(req.channel) in s.channels &&
      !AllKnown(s.tags, req.tags)) ==> Validate(s, req) == Err(UnknownTag(req.tags[FirstUnknown(s.tags, req.tags)]))
    ensures Validate(s, req).Ok? <==>
      TrimSpace(req.email) != "" && s.validAddress(TrimSpace(req.email)) && NormalChannel(req.channel) in s.channels &&
      forall i :: 0 <= i < |req.tags| ==> Known(s.tags, req.tags[i])
  {
    TagsFromOutcome(s.tags, {}, req.tags);
    AllKnownSpec(s.tags, req.tags);
  }

  /** A unknown tag is an error only when candidates are configured. */
  lemma NoCandidatesAcceptsAnyTag(s: Service, req: Request)
    requires |s.tags| == 0
    ensures Validate(s, req).Err? ==> !Validate(s, req).error.UnknownTag?
  {
    TagsFromOutcome(s.tags, {}, req.tags);
    AllKnownSpec(s.tags, req.tags);
  }

  /** What a valid request becomes: the trimmed address, the normalised channel, and every non-blank tag under its canonical spelling, set to true. */
  lemma ValidateResult(s: Service, req: Request)
    requires Validate(s, req).Ok?
    ensures Validate(s, req).value.email == TrimSpace(req.email) != ""
    ensures Validate(s, req).value.channel == NormalChannel(req.channel) && Validate(s, req).value.channel in s.channels
    ensures forall i :: 0 <= i < |req.tags| && Key(req.tags[i]) != "" ==> Canonical(s.tags, req.tags[i]) in Validate(s, req).value.tags
    ensures forall k :: k in Validate(s, req).value.tags ==>
      Validate(s, req).value.tags[k] == JBool(true) &&
      exists i :: 0 <= i < |req.tags| && Key(req.tags[i]) != "" && Canonical(s.tags, req.tags[i]) == k
  {
    var names := TagsFrom(s.tags, {}, req.tags).value;
    var v := Validate(s, req).value;
    assert v == Subscription(TrimSpace(req.email), NormalChannel(req.channel), TrueTags(names));
    assert forall i :: 0 <= i < |req.tags| && Key(req.tags[i]) != "" ==> Canonical(s.tags, req.tags[i]) in names by {
      TagsFromHas(s.tags, {}, req.tags);
    }
    assert forall k :: k in names ==> exists i :: 0 <= i < |req.tags| && Key(req.tags[i]) != "" && Canonical(s.tags, req.tags[i]) == k by {
      TagsFromOnly(s.tags, {}, req.tags);
    }
  }

  /** With candidates configured, the stored tags are spelled as the candidates are, whatever the case of the request. */
  lemma CandidateSpellings(candidates: seq<string>, s: Service, req: Request)
    requires s.tags == P.TagLookupOf(candidates) && |s.tags| > 0
    requires Validate(s, req).Ok?
    ensures forall k :: k in Validate(s, req).value.tags ==> exists i :: 0 <= i < |candidates| && TrimSpace(candidates[i]) == k
  {
    ValidateResult(s, req);
    ValidateErrors(s, req);
    forall k | k in Validate(s, req).value.tags
      ensures exists i :: 0 <= i < |candidates| && TrimSpace(candidates[i]) == k
    {
      var j :| 0 <= j < |req.tags| && Key(req.tags[j]) != "" && Canonical(s.tags, req.tags[j]) == k;
      CanonicalIsCandidate(candidates, req.tags[j]);
    }
  }

  /** The store is called only with a valid request; its failure is the result's, otherwise the stored subscription is returned. */
  lemma CreateStores(s: Service, req: Request)
    ensures Validate(s, req).Err? ==> CreateSpec(s, req) == Validate(s, req)
    ensures CreateSpec(s, req).Ok? <==> Validate(s, req).Ok? && s.store(Validate(s, req).value).None?
    ensures CreateSpec(s, req).Ok? ==> CreateSpec(s, req).value == Validate(s, req).value
    ensures CreateSpec(s, req).Err? && CreateSpec(s, req).error.StoreFailed? ==>
      Validate(s, req).Ok? && s.store(Validate(s, req).value) == Some(CreateSpec(s, req).error.message)
  {
    if Validate(s, req).Ok? {
      var sub := Validate(s, req).value;
      if s.store(sub).None? {
        assert CreateSpec(s, req) == Ok(sub);
      }
    } else {
      assert !Validate(s, req).error.StoreFailed? by {
        TagsFromOutcome(s.tags, {}, req.tags);
      }
    }
  }

  /** The tag loop of `Service.Create`: each non-blank tag under its canonical spelling, or the first unknown tag. */
  method CanonicalNames(lookup: map<string, string>, tags: seq<string>) returns (r: Result<set<string>, CreateError>)
    ensures r == TagsFrom(lookup, {}, tags)
  {
    var names: set<string> := {};
    var i := 0;
    assert tags[0..] == tags;
    while i < |tags|
      invariant 0 <= i <= |tags|
      invariant TagsFrom(lookup, names, tags[i..]) == TagsFrom(lookup, {}, tags)
    {
      var tag := tags[i];
      TagsFromAt(lookup, names, tags, i);
      var key := Lower(TrimSpace(tag));
      if key != "" {
        var canonical := if key in lookup then lookup[key] else "";
        if key !in lookup && |lookup| > 0 {
          return Err(UnknownTag(tag));
        }
        if canonical == "" {
          canonical := TrimSpace(tag);
        }
        names := names + {canonical};
      }
      i := i + 1;
    }
    assert tags[|tags|..] == [];
    r := Ok(names);
  }

  /** `Service.Create`: the request checked step by step, the tag map filled in a loop, and one store call on success. */
  method Create(s: Service, req: Request) returns (r: Result<Subscription, CreateError>, ghost stored: seq<Subscription>)
    ensures r == CreateSpec(s, req)
    ensures stored == if Validate(s, req).Ok? then [Validate(s, req).value] else []
  {
    stored := [];
    var email := TrimSpace(req.email);
    if email == "" {
      return Err(EmailRequired), stored;
    }
    if !s.validAddress(email) {
      return Err(InvalidEmail(email)), stored;
    }
    var channel := Lower(TrimSpace(req.channel));
    if channel == "" {
      channel := "email";
    }
    if channel !in s.channels {
      return Err(UnsupportedChannel(channel)), stored;
    }
    var outcome := CanonicalNames(s.tags, req.tags);
    if outcome.Err? {
      return Err(outcome.error), stored;
    }
    var names := outcome.value;
    var tagMap := map k | k in names :: JBool(true);
    var sub := Subscription(email, channel, tagMap);
    stored := [sub];
    var failure := s.store(sub);
    if failure.Some? {
      return Err(StoreFailed(failure.value)), stored;
    }
    r := Ok(sub);
  }
}
