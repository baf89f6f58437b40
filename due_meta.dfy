/**
 * The due-date classifier and the greeting of the task list screen: the
 * calendar-day distance from today to a task's due date picks a status and a
 * Vietnamese label prefix ("Trễ n ngày", "Hôm nay", "Ngày mai", "Sau n ngày").
 */
module DueMeta {
  import opened Wrappers
  import opened Text
  import opened Dates
  import opened TaskItem

  /** The prefix and status chosen for a day difference. */
  datatype Classification = Classification(prefix: string, status: DueStatus)

  /** The label and status shown for a task; the label is absent exactly when the status is `none`. */
  datatype DueInfo = DueInfo(dueLabel: Option<string>, dueStatus: DueStatus)

  const LatePrefix := "Trễ "
  const LaterPrefix := "Sau "
  const DaysSuffix := " ngày"
  const TodayPrefix := "Hôm nay"
  const TomorrowPrefix := "Ngày mai"
  /** Separates the prefix from the time of day in a label. */
  const Bullet := " • "

  /**
   * The if-chain over `diffDays = target day - today`: past days are overdue
   * and say how many days late, today and tomorrow have their own words, and
   * later days say how many days remain.
   */
  function Classify(diffDays: int): (c: Classification)
    ensures c.status == Overdue <==> diffDays < 0
    ensures c.status == Today <==> diffDays == 0
    ensures c.status == Upcoming <==> diffDays > 0
    ensures diffDays < 0 ==> c.prefix == LatePrefix + NatToString(-diffDays) + DaysSuffix
    ensures diffDays == 0 ==> c.prefix == TodayPrefix
    ensures diffDays == 1 ==> c.prefix == TomorrowPrefix
    ensures diffDays > 1 ==> c.prefix == LaterPrefix + NatToString(diffDays) + DaysSuffix
  {
    if diffDays < 0 then Classification(LatePrefix + NatToString(-diffDays) + DaysSuffix, Overdue)
    else if diffDays == 0 then Classification(TodayPrefix, Today)
    else if diffDays == 1 then Classification(TomorrowPrefix, Upcoming)
    else Classification(LaterPrefix + NatToString(diffDays) + DaysSuffix, Upcoming)
  }

  /** `n` between a fixed head and the " ngày" tail determines `n`. */
  lemma CountedPrefixInjective(head: string, a: nat, b: nat)
    requires head + NatToString(a) + DaysSuffix == head + NatToString(b) + DaysSuffix
    ensures a == b
  {
    var sa, sb := head + NatToString(a) + DaysSuffix, head + NatToString(b) + DaysSuffix;
    assert |NatToString(a)| == |NatToString(b)|;
    assert NatToString(a) == sa[|head|..|head| + |NatToString(a)|];
    assert NatToString(b) == sb[|head|..|head| + |NatToString(b)|];
    NatToStringInjective(a, b);
  }

  /** No two day differences share a prefix, so the label tells the user the exact distance. */
  lemma {:induction false} ClassifyPrefixInjective(a: int, b: int)
    requires Classify(a).prefix == Classify(b).prefix
    ensures a == b
  {
    var pa, pb := Classify(a).prefix, Classify(b).prefix;
    // the first character tells the four shapes apart
    assert pa[0] == (if a < 0 then 'T' else if a == 0 then 'H' else if a == 1 then 'N' else 'S');
    assert pb[0] == (if b < 0 then 'T' else if b == 0 then 'H' else if b == 1 then 'N' else 'S');
    if a < 0 {
      CountedPrefixInjective(LatePrefix, -a, -b);
    } else if a > 1 {
      CountedPrefixInjective(LaterPrefix, a, b);
    }
  }

  /** The label of a parsed due date: the prefix, a bullet and the time of day. */
  function LabelFor(due: Instant, today: int): string {
    Classify(due.day - today).prefix + Bullet + due.time
  }

  /**
   * `getDueMeta(dueDate)`: a missing or empty due date, or one that `new Date`
   * cannot parse, has no label and status `none`; otherwise the due date's
   * local day is compared with today's.
   */
  function GetDueMeta(dueDate: Option<string>, env: DateEnv): (m: DueInfo)
    ensures m.dueLabel.None? <==> m.dueStatus == DueNone
    ensures m.dueStatus == DueNone <==> dueDate.None? || dueDate.value == "" || env.parse(dueDate.value).None?
    ensures m.dueStatus != DueNone ==>
      var due := env.parse(dueDate.value).value;
      m.dueLabel == Some(LabelFor(due, env.now.day)) && m.dueStatus == Classify(due.day - env.now.day).status
  {
    if dueDate.None? || dueDate.value == "" then DueInfo(None, DueNone)
    else
      match env.parse(dueDate.value)
      case None => DueInfo(None, DueNone)
      case Some(due) =>
        var c := Classify(due.day - env.now.day);
        DueInfo(Some(c.prefix + Bullet + due.time), c.status)
  }

  /** A due date on the current local day is classified `today`, whatever its time of day. */
  lemma DueTodayIsToday(dueDate: string, env: DateEnv)
    requires dueDate != "" && env.parse(dueDate).Some? && env.parse(dueDate).value.day == env.now.day
    ensures GetDueMeta(Some(dueDate), env).dueStatus == Today
    ensures GetDueMeta(Some(dueDate), env).dueLabel == Some(TodayPrefix + Bullet + env.parse(dueDate).value.time)
  {
  }

  /** A prefix is made of letters, spaces and digits, never the bullet of the label. */
  lemma PrefixHasNoBullet(d: int)
    ensures forall i :: 0 <= i < |Classify(d).prefix| ==> Classify(d).prefix[i] != '•'
  {
  }

  /** Text joined around the bullet splits back at the bullet when the left part has none. */
  lemma SplitAtBullet(p1: string, t1: string, p2: string, t2: string)
    requires forall i :: 0 <= i < |p1| ==> p1[i] != '•'
    requires forall i :: 0 <= i < |p2| ==> p2[i] != '•'
    requires p1 + Bullet + t1 == p2 + Bullet + t2
    ensures p1 == p2 && t1 == t2
  {
    var l := p1 + Bullet + t1;
    assert l[|p1| + 1] == '•';
    assert l[|p2| + 1] == '•';
    assert p1 == l[..|p1|] && p2 == l[..|p2|];
    assert t1 == l[|p1| + 3..] && t2 == l[|p2| + 3..];
  }

  /** Two parsed due dates get the same label only if they fall the same number of days from today and show the same time. */
  lemma LabelInjective(d1: Instant, d2: Instant, today: int)
    requires LabelFor(d1, today) == LabelFor(d2, today)
    ensures d1.day == d2.day && d1.time == d2.time
  {
    PrefixHasNoBullet(d1.day - today);
    PrefixHasNoBullet(d2.day - today);
    SplitAtBullet(Classify(d1.day - today).prefix, d1.time, Classify(d2.day - today).prefix, d2.time);
    ClassifyPrefixInjective(d1.day - today, d2.day - today);
  }

  /** The greeting at the top of the screen. */
  datatype Greeting = Greeting(greetingLabel: string, greetingText: string)

  const MorningLabel := "CHÀO BUỔI SÁNG"
  const AfternoonLabel := "CHÀO BUỔI CHIỀU"
  const EveningLabel := "CHÀO BUỔI TỐI"
  /** The initial label of `getGreeting`, which every branch overwrites. */
  const HelloLabel := "XIN CHÀO"
  /** Stands in for a missing or empty user name. */
  const DefaultName := "bạn"
  const GreetingQuestion := ", hôm nay bạn làm gì?"

  /**
   * `getGreeting(userName)` at local hour `hour` (`new Date().getHours()`):
   * morning before noon, afternoon before six, evening after; the name falls
   * back to "bạn".
   */
  function GetGreeting(hour: int, userName: Option<string>): (g: Greeting)
    ensures g.greetingLabel == MorningLabel <==> hour < 12
    ensures g.greetingLabel == AfternoonLabel <==> 12 <= hour < 18
    ensures g.greetingLabel == EveningLabel <==> 18 <= hour
    ensures g.greetingLabel != HelloLabel
    ensures userName.Some? && userName.value != "" ==> g.greetingText == userName.value + GreetingQuestion
    ensures userName.None? || userName.value == "" ==> g.greetingText == DefaultName + GreetingQuestion
  {
    var greetingLabel := if hour < 12 then MorningLabel else if hour < 18 then AfternoonLabel else EveningLabel;
    var name := if userName.Some? && userName.value != "" then userName.value else DefaultName;
    Greeting(greetingLabel, name + GreetingQuestion)
  }
}
