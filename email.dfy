/**
 * The e-mail notifier of internal/notifier/email.go: one plain-text message listing the new jobs,
 * and the message text handed to SMTP (header lines ending in CRLF, a blank line, then the body,
 * as section 2.1 of RFC 5322 lays a message out). Sending is a parameter.
 */
module Email {
  import opened Wrappers
  import opened Strs
  import opened Model

  datatype EmailConfig = EmailConfig(host: string, port: int, username: string, password: string,
                                     from: string, to: seq<string>, subject: string)

  datatype EmailMessage = EmailMessage(from: string, to: seq<string>, subject: string, body: string)

  /** `EmailSender.Send`: `Some(message)` is a failure. */
  type Sender = EmailMessage -> Option<string>

  datatype EmailNotifier = EmailNotifier(cfg: EmailConfig, send: Sender)

  const DefaultSubject: string := "New remote jobs"
  const BodyHeader: string := "New remote jobs:"

  /**
   * `NewEmailNotifier`: the given sender, or the SMTP client built from the configuration when there is
   * none; an empty subject becomes "New remote jobs". The rest of the configuration is kept.
   */
  function NewEmailNotifier(cfg: EmailConfig, sender: Option<Sender>, smtp: Sender): (n: EmailNotifier)
    ensures n.cfg.subject != ""
    ensures cfg.subject != "" ==> n.cfg == cfg
    ensures n.cfg == cfg.(subject := n.cfg.subject)
    ensures sender.Some? ==> n.send == sender.value
    ensures sender.None? ==> n.send == smtp
    ensures cfg.subject == "" ==> n.cfg.subject == DefaultSubject
  {
    EmailNotifier(cfg.(subject := if cfg.subject == "" then DefaultSubject else cfg.subject),
                  if sender.Some? then sender.value else smtp)
  }

  /** One job's line of the body, without its line feed: `- Title (Source) URL`. */
  function JobLine(j: Job): string
  {
    "- " + j.title + " (" + j.source + ") " + j.url
  }

  /** The job lines, each ended by a line feed. */
  function Listing(jobs: seq<Job>): string
    decreases |jobs|
  {
    if |jobs| == 0 then "" else JobLine(jobs[0]) + "\n" + Listing(jobs[1..])
  }

  /** `buildBody` as a value: the header line, then one line per job, in order. */
  function BodyOf(jobs: seq<Job>): string
  {
    BodyHeader + "\n" + Listing(jobs)
  }

  lemma {:induction false} ListingSnoc(jobs: seq<Job>, j: Job)
    ensures Listing(jobs + [j]) == Listing(jobs) + JobLine(j) + "\n"
    decreases |jobs|
  {
    if |jobs| == 0 {
      assert Listing([j]) == JobLine(j) + "\n" + Listing([]);
    } else {
      assert (jobs + [j])[0] == jobs[0];
      assert (jobs + [j])[1..] == jobs[1..] + [j];
      ListingSnoc(jobs[1..], j);
    }
  }

  /** `buildBody`: the header line, then the jobs' lines appended in order. */
  method BuildBody(jobs: seq<Job>) returns (body: string)
    ensures body == BodyOf(jobs)
  {
    body := BodyHeader + "\n";
    var i := 0;
    while i < |jobs|
      invariant 0 <= i <= |jobs|
      invariant body == BodyHeader + "\n" + Listing(jobs[..i])
    {
      assert body + JobLine(jobs[i]) + "\n" == BodyHeader + "\n" + Listing(jobs[..i + 1]) by {
        ListingSnoc(jobs[..i], jobs[i]);
        assert jobs[..i + 1] == jobs[..i] + [jobs[i]];
      }
      body := body + JobLine(jobs[i]) + "\n";
      i := i + 1;
    }
    assert jobs[..|jobs|] == jobs;
  }

  /** No job field holds a line feed. */
  predicate SingleLine(jobs: seq<Job>)
  {
    forall i :: 0 <= i < |jobs| ==> '\n' !in jobs[i].title + jobs[i].source + jobs[i].url
  }

  lemma JobLineSingle(j: Job)
    requires '\n' !in j.title + j.source + j.url
    ensures '\n' !in JobLine(j)
  {
    forall k | 0 <= k < |JobLine(j)| ensures JobLine(j)[k] != '\n' {
      var t, s, u := |j.title|, |j.source|, |j.url|;
      if 2 <= k < 2 + t {
        assert JobLine(j)[k] == (j.title + j.source + j.url)[k - 2];
      } else if 4 + t <= k < 4 + t + s {
        assert JobLine(j)[k] == (j.title + j.source + j.url)[k - 4];
      } else if 6 + t + s <= k {
        assert JobLine(j)[k] == (j.title + j.source + j.url)[k - 6];
      }
    }
  }

  /** The listing splits into the jobs' lines, one per job, and an empty remainder after the last line feed. */
  lemma {:induction false} ListingLines(jobs: seq<Job>)
    requires SingleLine(jobs)
    ensures Split(Listing(jobs), '\n') == seq(|jobs|, i requires 0 <= i < |jobs| => JobLine(jobs[i])) + [""]
    decreases |jobs|
  {
    if |jobs| > 0 {
      var rest := jobs[1..];
      assert SingleLine(rest) by {
        forall i | 0 <= i < |rest| ensures '\n' !in rest[i].title + rest[i].source + rest[i].url {
          assert rest[i] == jobs[i + 1];
        }
      }
      ListingLines(rest);
      JobLineSingle(jobs[0]);
      SplitCons(JobLine(jobs[0]), '\n', Listing(rest));
      assert JobLine(jobs[0]) + "\n" + Listing(rest) == JobLine(jobs[0]) + ['\n'] + Listing(rest);
    }
  }

  /** The body has one line per job after the header line, each job's line in list order, and ends with a line feed. */
  lemma BodyLines(jobs: seq<Job>)
    requires SingleLine(jobs)
    ensures Split(BodyOf(jobs), '\n') == [BodyHeader] + seq(|jobs|, i requires 0 <= i < |jobs| => JobLine(jobs[i])) + [""]
    ensures |Split(BodyOf(jobs), '\n')| == |jobs| + 2
  {
    ListingLines(jobs);
    assert '\n' !in BodyHeader;
    SplitCons(BodyHeader, '\n', Listing(jobs));
    assert BodyOf(jobs) == BodyHeader + ['\n'] + Listing(jobs);
  }

  /** Every job's line appears in the listing. */
  lemma {:induction false} ListingHasJob(jobs: seq<Job>, i: int)
    requires 0 <= i < |jobs|
    ensures Contains(Listing(jobs), JobLine(jobs[i]) + "\n")
    decreases |jobs|
  {
    var rest := Listing(jobs[1..]);
    if i == 0 {
      ContainsInside("", JobLine(jobs[0]) + "\n", rest);
      assert Listing(jobs) == "" + (JobLine(jobs[0]) + "\n") + rest;
    } else {
      ListingHasJob(jobs[1..], i - 1);
      assert jobs[1..][i - 1] == jobs[i];
      ContainsTail(JobLine(jobs[0]) + "\n", rest, JobLine(jobs[i]) + "\n");
    }
  }

  /** Every job's line appears in the body. */
  lemma BodyListsJobs(jobs: seq<Job>, i: int)
    requires 0 <= i < |jobs|
    ensures Contains(BodyOf(jobs), JobLine(jobs[i]) + "\n")
  {
    ListingHasJob(jobs, i);
    ContainsTail(BodyHeader + "\n", Listing(jobs), JobLine(jobs[i]) + "\n");
  }

  /** A header line up to its line feed: `Name: value` and a carriage return. */
  function HeaderLine(name: string, value: string): string
  {
    name + ": " + value + "\r"
  }

  /** One header: its line ended by CRLF. */
  function Header(name: string, value: string): string
  {
    HeaderLine(name, value) + "\n"
  }

  const MimeVersion: string := "MIME-Version: 1.0"
  const ContentType: string := "Content-Type: text/plain; charset=utf-8"

  /**
   * `buildEmailData`, the builder's writes in order: From, To (comma-joined) and Subject, the two MIME
   * headers, the blank line, then the body.
   */
  function EmailData(msg: EmailMessage): string
  {
    Header("From", msg.from) + (Header("To", Join(msg.to, ",")) + (Header("Subject", msg.subject)
      + (MimeVersion + "\r" + "\n" + (ContentType + "\r" + "\n" + ("\r" + "\n" + msg.body)))))
  }

  /** Lines, each followed by a line feed. */
  function Lines(ls: seq<string>): string
    decreases |ls|
  {
    if |ls| == 0 then "" else ls[0] + "\n" + Lines(ls[1..])
  }

  /** Text made of line-feed-free lines and a rest splits into those lines and the rest's pieces. */
  lemma {:induction false} SplitLines(ls: seq<string>, rest: string)
    requires forall i :: 0 <= i < |ls| ==> '\n' !in ls[i]
    ensures Split(Lines(ls) + rest, '\n') == ls + Split(rest, '\n')
    decreases |ls|
  {
    if |ls| == 0 {
      assert Lines(ls) + rest == rest;
      assert ls + Split(rest, '\n') == Split(rest, '\n');
    } else {
      SplitLines(ls[1..], rest);
      assert Lines(ls) + rest == ls[0] + ['\n'] + (Lines(ls[1..]) + rest);
      SplitCons(ls[0], '\n', Lines(ls[1..]) + rest);
      assert ls == [ls[0]] + ls[1..];
      assert [ls[0]] + (ls[1..] + Split(rest, '\n')) == ls + Split(rest, '\n');
    }
  }

  /** The header lines of a message, each with its carriage return, and the blank line. */
  function HeaderLines(msg: EmailMessage): seq<string>
  {
    [HeaderLine("From", msg.from), HeaderLine("To", Join(msg.to, ",")), HeaderLine("Subject", msg.subject),
     MimeVersion + "\r", ContentType + "\r", "\r"]
  }

  lemma LinesAppend(l: string, ls: seq<string>, rest: string)
    ensures Lines([l] + ls) + rest == l + "\n" + (Lines(ls) + rest)
  {
    assert ([l] + ls)[1..] == ls;
  }

  lemma EmailDataIsLines(msg: EmailMessage)
    ensures EmailData(msg) == Lines(HeaderLines(msg)) + msg.body
  {
    var ls := HeaderLines(msg);
    var b := msg.body;
    assert ls == [ls[0]] + ([ls[1]] + ([ls[2]] + ([ls[3]] + ([ls[4]] + ([ls[5]] + [])))));
    assert Lines([]) + b == b;
    LinesAppend(ls[5], [], b);
    LinesAppend(ls[4], [ls[5]] + [], b);
    LinesAppend(ls[3], [ls[4]] + ([ls[5]] + []), b);
    LinesAppend(ls[2], [ls[3]] + ([ls[4]] + ([ls[5]] + [])), b);
    LinesAppend(ls[1], [ls[2]] + ([ls[3]] + ([ls[4]] + ([ls[5]] + []))), b);
    LinesAppend(ls[0], [ls[1]] + ([ls[2]] + ([ls[3]] + ([ls[4]] + ([ls[5]] + [])))), b);
  }

  /**
   * Read line by line, the message is the five header lines, each ending in a carriage return, then a
   * line holding only a carriage return (the blank line), then the body's own lines, unchanged.
   */
  lemma EmailDataLines(msg: EmailMessage)
    requires '\n' !in msg.from && '\n' !in Join(msg.to, ",") && '\n' !in msg.subject
    ensures Split(EmailData(msg), '\n') == HeaderLines(msg) + Split(msg.body, '\n')
    ensures HeaderLines(msg)[5] == "\r"
    ensures Join(Split(msg.body, '\n'), "\n") == msg.body
  {
    assert Split(EmailData(msg), '\n') == HeaderLines(msg) + Split(msg.body, '\n') by {
      HeaderLinesClean(msg);
      EmailDataIsLines(msg);
      SplitLines(HeaderLines(msg), msg.body);
    }
    SplitJoin(msg.body, '\n');
  }

  /** No header line holds a line feed when the addresses and the subject hold none. */
  lemma HeaderLinesClean(msg: EmailMessage)
    requires '\n' !in msg.from && '\n' !in Join(msg.to, ",") && '\n' !in msg.subject
    ensures forall i :: 0 <= i < |HeaderLines(msg)| ==> '\n' !in HeaderLines(msg)[i]
  {
    NoLineFeed("From", msg.from);
    NoLineFeed("To", Join(msg.to, ","));
    NoLineFeed("Subject", msg.subject);
  }

  lemma NoLineFeed(name: string, value: string)
    requires '\n' !in name && '\n' !in value
    ensures '\n' !in HeaderLine(name, value)
  {
    var h := HeaderLine(name, value);
    forall k | 0 <= k < |h| ensures h[k] != '\n' {
      if k < |name| {
        assert h[k] == name[k];
      } else if |name| + 2 <= k < |name| + 2 + |value| {
        assert h[k] == value[k - |name| - 2];
      }
    }
  }

  /** `EmailNotifier.Notify`: nothing for no jobs; otherwise one message from the configuration, whose body lists the jobs. */
  method Notify(n: EmailNotifier, jobs: seq<Job>) returns (err: Option<string>, ghost sent: seq<EmailMessage>)
    ensures |jobs| == 0 ==> err.None? && sent == []
    ensures |jobs| > 0 ==> sent == [EmailMessage(n.cfg.from, n.cfg.to, n.cfg.subject, BodyOf(jobs))]
    ensures |jobs| > 0 ==> err == n.send(EmailMessage(n.cfg.from, n.cfg.to, n.cfg.subject, BodyOf(jobs)))
  {
    if |jobs| == 0 {
      return None, [];
    }
    var body := BuildBody(jobs);
    var msg := EmailMessage(n.cfg.from, n.cfg.to, n.cfg.subject, body);
    err := n.send(msg);
    sent := [msg];
  }
}
