/**
 * The subscription notifier of internal/notifier/subscription.go: for each subscriber, the new jobs
 * that carry all of the subscriber's wanted tags, sent as one e-mail to that subscriber's address;
 * the whole list goes to a fallback notifier when nobody has subscribed.
 */
module Dispatch {
  import opened Wrappers
  import opened Strs
  import opened Model
  import opened Email

  /** A map entry, or JSON null (Go's nil) when the key is missing. */
  function Lookup(m: JsonMap, k: string): Json
  {
    if k in m then m[k] else JNull
  }

  /** `isTruthy`: a bool is itself, a string is "true" up to case and outer space, a number is non-zero, anything else is non-nil. */
  predicate IsTruthy(v: Json)
  {
    match v
    case JBool(b) => b
    case JStr(s) => TrimSpace(Lower(s)) == "true"
    case JNum(n) => n != 0.0
    case JNull => false
    case _ => true
  }

  /** Trimming before or after lower-casing is the same, so a string is truthy when its trimmed form is "true" in any case. */
  lemma TruthyString(s: string)
    ensures IsTruthy(JStr(s)) <==> Lower(TrimSpace(s)) == "true"
  {
    LowerTrimCommute(s);
  }

  /**
   * `jobMatches`: no tags match everything; otherwise a job without normalized tags matches nothing,
   * and every truthy tag of the subscription must be truthy on the job. Falsy tags are ignored.
   */
  predicate JobMatches(job: Job, tags: JsonMap)
  {
    |tags| == 0 ||
      (job.normalizedTags.Some? &&
       forall k :: k in tags && IsTruthy(tags[k]) ==> IsTruthy(Lookup(job.normalizedTags.value, k)))
  }

  /** Asking for more tags never lets more jobs through. */
  lemma MatchesMonotone(job: Job, fewer: JsonMap, more: JsonMap)
    requires |fewer| > 0
    requires forall k :: k in fewer ==> k in more && more[k] == fewer[k]
    requires JobMatches(job, more)
    ensures JobMatches(job, fewer)
  {
    var k0 :| k0 in fewer;
    assert k0 in more;
    assert |more| > 0;
  }

  /** A falsy tag changes nothing once the subscription has some other tag. */
  lemma FalsyTagIgnored(job: Job, tags: JsonMap, k: string, v: Json)
    requires |tags - {k}| > 0 && !IsTruthy(v)
    ensures JobMatches(job, tags[k := v]) <==> JobMatches(job, tags - {k})
  {
    var t := tags[k := v];
    assert |t| > 0 by {
      assert k in t;
    }
    if JobMatches(job, tags - {k}) && |tags - {k}| > 0 {
      assert JobMatches(job, t);
    }
  }

  /** A subscription whose tags are all falsy still turns away a job without normalized tags, and takes every other job. */
  lemma FalsyTagsOnly(job: Job, tags: JsonMap)
    requires |tags| > 0
    requires forall k :: k in tags ==> !IsTruthy(tags[k])
    ensures JobMatches(job, tags) <==> job.normalizedTags.Some?
  {
  }

  /** The jobs passing the tag filter, in their order. */
  function Filtered(tags: JsonMap, jobs: seq<Job>): seq<Job>
    decreases |jobs|
  {
    if |jobs| == 0 then []
    else Filtered(tags, jobs[..|jobs| - 1]) + (if JobMatches(jobs[|jobs| - 1], tags) then [jobs[|jobs| - 1]] else [])
  }

  /** Filtering is applied job by job: the filtered list of two lists joined is the two filtered lists joined. */
  lemma {:induction false} FilteredConcat(tags: JsonMap, a: seq<Job>, b: seq<Job>)
    ensures Filtered(tags, a + b) == Filtered(tags, a) + Filtered(tags, b)
    decreases |b|
  {
    if |b| == 0 {
      assert a + b == a;
    } else {
      var b0 := b[..|b| - 1];
      assert (a + b)[..|a + b| - 1] == a + b0;
      assert (a + b)[|a + b| - 1] == b[|b| - 1];
      FilteredConcat(tags, a, b0);
    }
  }

  /** The filtered list holds exactly the listed jobs that match. */
  lemma {:induction false} FilteredSpec(tags: JsonMap, jobs: seq<Job>)
    ensures forall j :: j in Filtered(tags, jobs) <==> j in jobs && JobMatches(j, tags)
    ensures |Filtered(tags, jobs)| <= |jobs|
    decreases |jobs|
  {
    if |jobs| > 0 {
      var init := jobs[..|jobs| - 1];
      FilteredSpec(tags, init);
      assert jobs == init + [jobs[|jobs| - 1]];
    }
  }

  /** A subscription without tags receives every job. */
  lemma {:induction false} FilteredAll(tags: JsonMap, jobs: seq<Job>)
    requires |tags| == 0
    ensures Filtered(tags, jobs) == jobs
    decreases |jobs|
  {
    if |jobs| > 0 {
      FilteredAll(tags, jobs[..|jobs| - 1]);
    }
  }

  /** `filterJobsBySubscription`: all jobs for a subscription without tags, else the matching ones in order. */
  method FilterJobs(sub: Subscription, jobs: seq<Job>) returns (filtered: seq<Job>)
    ensures filtered == Filtered(sub.tags, jobs)
  {
    if |sub.tags| == 0 {
      FilteredAll(sub.tags, jobs);
      return jobs;
    }
    filtered := [];
    var i := 0;
    while i < |jobs|
      invariant 0 <= i <= |jobs|
      invariant filtered == Filtered(sub.tags, jobs[..i])
    {
      assert jobs[..i + 1][..i] == jobs[..i];
      if JobMatches(jobs[i], sub.tags) {
        filtered := filtered + [jobs[i]];
      }
      i := i + 1;
    }
    assert jobs[..|jobs|] == jobs;
  }

  // ---------------------------------------------------------------- the notifier

  /**
   * The notifier's collaborators: the subscription listing (`None` for a nil store, `Err` for a failed
   * query), the base e-mail configuration, the configured sender (`None` means the SMTP client), the
   * SMTP client, and the optional fallback notifier (`Some(message)` is a failure).
   */
  datatype SubscriptionNotifier = SubscriptionNotifier(
    subscriptions: Option<Result<seq<Subscription>, string>>,
    emailCfg: EmailConfig,
    sender: Option<Sender>,
    smtp: Sender,
    fallback: Option<seq<Job> -> Option<string>>)

  datatype NotifyError = ListFailed(message: string) | Failed(message: string)

  /** What a notification did: the e-mails sent, the lists given to the fallback, and the error returned. */
  datatype Dispatched = Dispatched(sent: seq<EmailMessage>, fellBack: seq<seq<Job>>, err: Option<NotifyError>)

  /** The e-mail channel, or no channel, up to case and outer space. */
  predicate IsEmailChannel(channel: string)
  {
    var c := Lower(TrimSpace(channel));
    c == "email" || c == ""
  }

  /** The notifier for one subscriber: the base configuration addressed to that subscriber alone. */
  function SubscriberNotifier(n: SubscriptionNotifier, sub: Subscription): EmailNotifier
  {
    NewEmailNotifier(n.emailCfg.(to := [sub.email]), n.sender, n.smtp)
  }

  /** The sender every subscriber's e-mail goes through: the configured one, else the SMTP client. */
  function Send(n: SubscriptionNotifier): Sender
  {
    if n.sender.Some? then n.sender.value else n.smtp
  }

  /** The e-mail a subscriber gets for a non-empty list of matching jobs. */
  function MessageFor(n: SubscriptionNotifier, sub: Subscription, matches: seq<Job>): (m: EmailMessage)
    ensures m.to == [sub.email] && m.from == n.emailCfg.from
    ensures m.subject != "" && (n.emailCfg.subject != "" ==> m.subject == n.emailCfg.subject)
    ensures m.body == BodyOf(matches)
  {
    var cfg := SubscriberNotifier(n, sub).cfg;
    EmailMessage(cfg.from, cfg.to, cfg.subject, BodyOf(matches))
  }

  /** Whether a subscriber is sent anything: an e-mail channel and at least one matching job. */
  predicate Receives(sub: Subscription, jobs: seq<Job>)
  {
    IsEmailChannel(sub.channel) && |Filtered(sub.tags, jobs)| > 0
  }

  /** The e-mails the subscribers are due, in subscription order. */
  function Due(n: SubscriptionNotifier, subs: seq<Subscription>, jobs: seq<Job>): seq<EmailMessage>
    decreases |subs|
  {
    if |subs| == 0 then []
    else
      (if Receives(subs[0], jobs) then [MessageFor(n, subs[0], Filtered(subs[0].tags, jobs))] else [])
        + Due(n, subs[1..], jobs)
  }

  /** The subscription loop: send what is due, stopping at the first failed send. */
  function SendAll(n: SubscriptionNotifier, subs: seq<Subscription>, jobs: seq<Job>): Dispatched
    decreases |subs|
  {
    if |subs| == 0 then Dispatched([], [], None)
    else if !Receives(subs[0], jobs) then SendAll(n, subs[1..], jobs)
    else
      var msg := MessageFor(n, subs[0], Filtered(subs[0].tags, jobs));
      match Send(n)(msg)
      case Some(e) => Dispatched([msg], [], Some(Failed(e)))
      case None => Sent(msg, SendAll(n, subs[1..], jobs))
  }

  /** An outcome with one more e-mail sent before the others. */
  function Sent(msg: EmailMessage, d: Dispatched): Dispatched
  {
    d.(sent := [msg] + d.sent)
  }

  /** `Notify` on the subscription notifier. */
  function NotifySpec(n: SubscriptionNotifier, jobs: seq<Job>): Dispatched
  {
    if |jobs| == 0 || n.subscriptions.None? then Dispatched([], [], None)
    else match n.subscriptions.value
      case Err(e) => Dispatched([], [], Some(ListFailed(e)))
      case Ok(subs) =>
        if |subs| == 0 then
          if n.fallback.Some? then
            Dispatched([], [jobs], if n.fallback.value(jobs).Some? then Some(Failed(n.fallback.value(jobs).value)) else None)
          else Dispatched([], [], None)
        else SendAll(n, subs, jobs)
  }

  /** Each e-mail goes to one subscriber's address only, and lists that subscriber's jobs. */
  lemma {:induction false} DueAddressed(n: SubscriptionNotifier, subs: seq<Subscription>, jobs: seq<Job>)
    ensures forall m :: m in Due(n, subs, jobs) ==>
      exists sub :: sub in subs && Receives(sub, jobs) && m.to == [sub.email] && m.body == BodyOf(Filtered(sub.tags, jobs))
    decreases |subs|
  {
    if |subs| > 0 {
      DueAddressed(n, subs[1..], jobs);
    }
  }

  /** Every subscriber due an e-mail has one in the list. */
  lemma {:induction false} DueComplete(n: SubscriptionNotifier, subs: seq<Subscription>, jobs: seq<Job>)
    ensures forall sub :: sub in subs && Receives(sub, jobs) ==> MessageFor(n, sub, Filtered(sub.tags, jobs)) in Due(n, subs, jobs)
    decreases |subs|
  {
    if |subs| > 0 {
      DueComplete(n, subs[1..], jobs);
    }
  }

  /**
   * The loop sends the due e-mails in order: all of them when every send succeeds; otherwise exactly
   * those up to and including the first one whose send fails, and that failure is the error.
   */
  lemma {:induction false} SendAllSpec(n: SubscriptionNotifier, subs: seq<Subscription>, jobs: seq<Job>)
    ensures SendAll(n, subs, jobs).fellBack == []
    ensures SendAll(n, subs, jobs).err.None? ==> SendAll(n, subs, jobs).sent == Due(n, subs, jobs)
    ensures SendAll(n, subs, jobs).err.Some? ==>
      var sent := SendAll(n, subs, jobs).sent;
      && 0 < |sent| <= |Due(n, subs, jobs)|
      && sent == Due(n, subs, jobs)[..|sent|]
      && SendAll(n, subs, jobs).err.value.Failed?
    decreases |subs|
  {
    if |subs| > 0 {
      SendAllSpec(n, subs[1..], jobs);
      if Receives(subs[0], jobs) {
        var msg := MessageFor(n, subs[0], Filtered(subs[0].tags, jobs));
        assert Due(n, subs, jobs) == [msg] + Due(n, subs[1..], jobs);
      } else {
        assert Due(n, subs, jobs) == Due(n, subs[1..], jobs);
      }
    }
  }

  /** The last e-mail sent is the one whose send failed, with that failure as the error; every earlier send succeeded. */
  lemma {:induction false} SendAllStopsAtFailure(n: SubscriptionNotifier, subs: seq<Subscription>, jobs: seq<Job>)
    ensures forall k :: 0 <= k < |SendAll(n, subs, jobs).sent| - 1 ==> Send(n)(SendAll(n, subs, jobs).sent[k]).None?
    ensures SendAll(n, subs, jobs).err.None? ==> forall m :: m in SendAll(n, subs, jobs).sent ==> Send(n)(m).None?
    ensures SendAll(n, subs, jobs).err.Some? ==>
      |SendAll(n, subs, jobs).sent| > 0 &&
      Send(n)(SendAll(n, subs, jobs).sent[|SendAll(n, subs, jobs).sent| - 1]) == Some(SendAll(n, subs, jobs).err.value.message)
    decreases |subs|
  {
    if |subs| > 0 {
      SendAllStopsAtFailure(n, subs[1..], jobs);
      if Receives(subs[0], jobs) {
        var msg := MessageFor(n, subs[0], Filtered(subs[0].tags, jobs));
        if Send(n)(msg).None? {
          var rest := SendAll(n, subs[1..], jobs);
          assert SendAll(n, subs, jobs).sent == [msg] + rest.sent;
        }
      }
    }
  }

  /** With nobody subscribed, the fallback (if any) gets the whole list and nothing is e-mailed; no jobs, no store: nothing happens. */
  lemma NotifyShortcuts(n: SubscriptionNotifier, jobs: seq<Job>)
    ensures |jobs| == 0 || n.subscriptions.None? ==> NotifySpec(n, jobs) == Dispatched([], [], None)
    ensures |jobs| > 0 && n.subscriptions == Some(Ok([])) ==>
      NotifySpec(n, jobs).sent == [] && NotifySpec(n, jobs).fellBack == (if n.fallback.Some? then [jobs] else [])
  {
  }

  /** One subscriber's turn in the loop: filter, then e-mail the matches when the channel is e-mail. */
  method NotifySubscriber(n: SubscriptionNotifier, sub: Subscription, jobs: seq<Job>) returns (err: Option<string>, ghost mails: seq<EmailMessage>)
    ensures !Receives(sub, jobs) ==> err.None?
    ensures Receives(sub, jobs) ==> err == Send(n)(MessageFor(n, sub, Filtered(sub.tags, jobs)))
    ensures mails == if Receives(sub, jobs) then [MessageFor(n, sub, Filtered(sub.tags, jobs))] else []
  {
    var matches := FilterJobs(sub, jobs);
    if |matches| > 0 && IsEmailChannel(sub.channel) {
      err, mails := Email.Notify(SubscriberNotifier(n, sub), matches);
    } else {
      err, mails := None, [];
    }
  }

  /** The loop's step: what is left of the subscriptions after the first is handled. */
  lemma SendAllStep(n: SubscriptionNotifier, subs: seq<Subscription>, i: nat, jobs: seq<Job>)
    requires i < |subs|
    ensures !Receives(subs[i], jobs) ==> SendAll(n, subs[i..], jobs) == SendAll(n, subs[i + 1..], jobs)
    ensures Receives(subs[i], jobs) ==>
      var msg := MessageFor(n, subs[i], Filtered(subs[i].tags, jobs));
      SendAll(n, subs[i..], jobs) ==
        if Send(n)(msg).Some? then Dispatched([msg], [], Some(Failed(Send(n)(msg).value)))
        else Sent(msg, SendAll(n, subs[i + 1..], jobs))
  {
    assert subs[i..][0] == subs[i] && subs[i..][1..] == subs[i + 1..];
  }

  /** `SubscriptionNotifier.Notify`: list the subscriptions, fall back when there are none, else e-mail each subscriber its matches. */
  method Notify(n: SubscriptionNotifier, jobs: seq<Job>) returns (err: Option<NotifyError>, ghost sent: seq<EmailMessage>, ghost fellBack: seq<seq<Job>>)
    ensures err == NotifySpec(n, jobs).err
    ensures sent == NotifySpec(n, jobs).sent && fellBack == NotifySpec(n, jobs).fellBack
  {
    sent, fellBack := [], [];
    if |jobs| == 0 || n.subscriptions.None? {
      return None, sent, fellBack;
    }
    var listed := n.subscriptions.value;
    if listed.Err? {
      return Some(ListFailed(listed.error)), sent, fellBack;
    }
    var subs := listed.value;
    if |subs| == 0 {
      if n.fallback.Some? {
        var failure := n.fallback.value(jobs);
        fellBack := [jobs];
        if failure.Some? {
          return Some(Failed(failure.value)), sent, fellBack;
        }
      }
      return None, sent, fellBack;
    }
    var i := 0;
    assert subs[0..] == subs;
    while i < |subs|
      invariant 0 <= i <= |subs|
      invariant SendAll(n, subs, jobs) == SendAll(n, subs[i..], jobs).(sent := sent + SendAll(n, subs[i..], jobs).sent)
      invariant fellBack == []
    {
      SendAllStep(n, subs, i, jobs);
      var failure;
      ghost var mails;
      failure, mails := NotifySubscriber(n, subs[i], jobs);
      sent := sent + mails;
      if failure.Some? {
        return Some(Failed(failure.value)), sent, fellBack;
      }
      i := i + 1;
    }
    assert sent + [] == sent;
    err := None;
  }
}
