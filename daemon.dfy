/**
  * The scheduler's reading of a cron string (`minute hour day month day_of_week`) into
  * the keyword arguments of a cron trigger.  The scheduling itself is not modelled.
  */
module Daemon {
  import opened Text

  /** The `minute` argument: the field's text, or the number the parser puts for `*`. */
  datatype CronValue = Number(n: int) | Field(text: string)

  /**
    * The keyword arguments: `{"hour": 8, "minute": 0}` for a malformed string, else the
    * five keys `minute`, `hour`, `day`, `month`, `day_of_week`.
    */
  datatype Trigger =
    | DailyAt(atHour: int, atMinute: int)
    | Schedule(minute: CronValue, hour: string, day: string, month: string, dayOfWeek: string)

  /** The trigger used when the string does not have five fields: every day at 8:00. */
  const DailyAtEight: Trigger := DailyAt(8, 0)

  /** `_parse_cron` */
  function ParseCron(cron: string): (r: Trigger)
    ensures r.DailyAt? <==> |SplitWhitespace(cron)| != 5
  {
    var parts := SplitWhitespace(cron);
    if |parts| != 5 then DailyAtEight
    else
      Schedule(if parts[0] != "*" then Field(parts[0]) else Number(0),
               if parts[1] != "*" then parts[1] else "*",
               if parts[2] != "*" then parts[2] else "*",
               if parts[3] != "*" then parts[3] else "*",
               if parts[4] != "*" then parts[4] else "*")
  }

  /** A string without exactly five whitespace-separated fields gives the daily default. */
  lemma MalformedIsDaily(cron: string)
    requires |SplitWhitespace(cron)| != 5
    ensures ParseCron(cron) == DailyAtEight
  {
  }

  /**
    * Five fields: the five keys; a `*` minute becomes 0, any other minute is kept;
    * the other four fields are passed through unchanged.
    */
  lemma FiveFields(cron: string)
    requires |SplitWhitespace(cron)| == 5
    ensures var r := ParseCron(cron);
            var parts := SplitWhitespace(cron);
            r.Schedule?
            && r.minute == (if parts[0] == "*" then Number(0) else Field(parts[0]))
            && r.hour == parts[1] && r.day == parts[2] && r.month == parts[3] && r.dayOfWeek == parts[4]
  {
  }

  /** Five words joined by single spaces are read back field by field. */
  lemma ReadsJoinedFields(minute: string, hour: string, day: string, month: string, weekday: string)
    requires forall w :: w in [minute, hour, day, month, weekday] ==> w != [] && NoSpace(w)
    ensures var r := ParseCron(JoinWords([minute, hour, day, month, weekday]));
            r == Schedule(if minute == "*" then Number(0) else Field(minute), hour, day, month, weekday)
  {
    var ws := [minute, hour, day, month, weekday];
    assert forall k :: 0 <= k < |ws| ==> ws[k] != [] && NoSpace(ws[k]) by {
      forall k | 0 <= k < |ws| ensures ws[k] != [] && NoSpace(ws[k]) {
        assert ws[k] in ws;
      }
    }
    SplitWhitespaceOfJoinWords(ws);
  }
}
