/** The ingest script's conversion of a catalog duration such as `PT1H2M3S`
    into a number of seconds, with `-1` standing for "could not be parsed". */
module Duration {
  import opened Wrappers
  import opened Text

  /** Python's `s[2:]`: the text after the first two characters, empty when there are fewer. */
  function DropTwo(s: string): (t: string)
    ensures |s| >= 2 ==> s == s[..2] + t
    ensures |s| < 2 ==> t == ""
  {
    if |s| <= 2 then "" else s[2..]
  }

  /** The hours: the text before the first `H`, when there is an `H`. */
  function HoursOf(t: string): Option<nat> {
    if 'H' in t then ParseDecimal(FirstField(t, 'H')) else Some(0)
  }

  /** The minutes: the text between the last `H` and the next `M`, when there is an `M`. */
  function MinutesOf(t: string): Option<nat> {
    if 'M' in t then ParseDecimal(FirstField(LastField(t, 'H'), 'M')) else Some(0)
  }

  /** The seconds, when there is an `S`: read after the last `H` if there is an `H` but
      no `M`, and after the last `M` otherwise. */
  function SecondsOf(t: string): Option<nat> {
    if 'S' in t then
      if 'H' in t && 'M' !in t then ParseDecimal(FirstField(LastField(t, 'H'), 'S'))
      else ParseDecimal(FirstField(LastField(t, 'M'), 'S'))
    else Some(0)
  }

  /** `youtube_iso8601_pt_to_seconds`: the components of the text after the first two
      characters, combined as `3600*h + 60*m + s`. A component whose text is not a digit
      string is the `ValueError` that the source catches, and the result is then `-1`. */
  function PtToSeconds(iso: string): (r: int)
    ensures r == -1 || r >= 0
    ensures r >= 0 <==> HoursOf(DropTwo(iso)).Some? && MinutesOf(DropTwo(iso)).Some? && SecondsOf(DropTwo(iso)).Some?
  {
    var t := DropTwo(iso);
    var hours, minutes, seconds := HoursOf(t), MinutesOf(t), SecondsOf(t);
    if hours.Some? && minutes.Some? && seconds.Some? then
      hours.value * 3600 + minutes.value * 60 + seconds.value
    else
      -1
  }

  /** A component of a duration: absent, or the digit text written before its marker. */
  predicate WellFormed(c: Option<string>) {
    c.None? || IsDigits(c.value)
  }

  function Component(c: Option<string>, marker: char): string {
    if c.None? then "" else c.value + [marker]
  }

  function ComponentValue(c: Option<string>): nat
    requires WellFormed(c)
  {
    if c.None? then 0 else DigitsValue(c.value)
  }

  /** `#H#M#S` with any of the three components left out, in that order. */
  function Render(h: Option<string>, m: Option<string>, s: Option<string>): string {
    Component(h, 'H') + Component(m, 'M') + Component(s, 'S')
  }

  lemma DigitsHaveNoMarker(d: string, c: char)
    requires IsDigits(d) && !IsDigit(c)
    ensures c !in d
  {
  }

  lemma ComponentMarkers(x: Option<string>, marker: char)
    requires WellFormed(x)
    ensures forall c :: !IsDigit(c) && c != marker ==> c !in Component(x, marker)
    ensures (marker in Component(x, marker)) <==> x.Some?
  {
    if x.Some? {
      forall c | !IsDigit(c)
        ensures c !in x.value
      {
        DigitsHaveNoMarker(x.value, c);
      }
      assert Component(x, marker)[|x.value|] == marker;
    }
  }

  lemma RenderMarkers(h: Option<string>, m: Option<string>, s: Option<string>)
    requires WellFormed(h) && WellFormed(m) && WellFormed(s)
    ensures ('H' in Render(h, m, s)) <==> h.Some?
    ensures ('M' in Render(h, m, s)) <==> m.Some?
    ensures ('S' in Render(h, m, s)) <==> s.Some?
    ensures 'H' !in Component(m, 'M') + Component(s, 'S')
    ensures 'M' !in Component(s, 'S')
  {
    ComponentMarkers(h, 'H');
    ComponentMarkers(m, 'M');
    ComponentMarkers(s, 'S');
  }

  /** What follows the last `H` is the minutes-and-seconds part. */
  lemma RenderAfterH(h: Option<string>, m: Option<string>, s: Option<string>)
    requires WellFormed(h) && WellFormed(m) && WellFormed(s)
    ensures LastField(Render(h, m, s), 'H') == Component(m, 'M') + Component(s, 'S')
  {
    var rest := Component(m, 'M') + Component(s, 'S');
    assert 'H' !in rest by {
      RenderMarkers(h, m, s);
    }
    if h.Some? {
      assert Render(h, m, s) == h.value + ['H'] + rest;
      LastFieldOf(h.value, rest, 'H');
    } else {
      assert Render(h, m, s) == rest;
      FieldsWithoutSep(rest, 'H');
    }
  }

  /** What follows the last `M`, when there is one, is the seconds part. */
  lemma RenderAfterM(h: Option<string>, m: Option<string>, s: Option<string>)
    requires WellFormed(h) && WellFormed(m) && WellFormed(s) && m.Some?
    ensures LastField(Render(h, m, s), 'M') == Component(s, 'S')
  {
    var sp := Component(s, 'S');
    var front := Component(h, 'H') + m.value;
    RenderMarkers(h, m, s);
    assert Render(h, m, s) == front + ['M'] + sp;
    LastFieldOf(front, sp, 'M');
  }

  lemma RenderHours(h: Option<string>, m: Option<string>, s: Option<string>)
    requires WellFormed(h) && WellFormed(m) && WellFormed(s)
    ensures HoursOf(Render(h, m, s)) == Some(ComponentValue(h))
  {
    var t := Render(h, m, s);
    assert ('H' in t) <==> h.Some? by {
      RenderMarkers(h, m, s);
    }
    if h.Some? {
      var rest := Component(m, 'M') + Component(s, 'S');
      assert t == h.value + ['H'] + rest;
      assert 'H' !in h.value by {
        ComponentMarkers(h, 'H');
      }
      FirstFieldOf(h.value, rest, 'H');
    }
  }

  lemma RenderMinutes(h: Option<string>, m: Option<string>, s: Option<string>)
    requires WellFormed(h) && WellFormed(m) && WellFormed(s)
    ensures MinutesOf(Render(h, m, s)) == Some(ComponentValue(m))
  {
    RenderMarkers(h, m, s);
    RenderAfterH(h, m, s);
    if m.Some? {
      assert Component(m, 'M') + Component(s, 'S') == m.value + ['M'] + Component(s, 'S');
      FirstFieldOf(m.value, Component(s, 'S'), 'M');
    }
  }

  lemma RenderSeconds(h: Option<string>, m: Option<string>, s: Option<string>)
    requires WellFormed(h) && WellFormed(m) && WellFormed(s)
    ensures SecondsOf(Render(h, m, s)) == Some(ComponentValue(s))
  {
    var t := Render(h, m, s);
    RenderMarkers(h, m, s);
    if s.Some? {
      var sp := Component(s, 'S');
      assert sp == s.value + ['S'] + [];
      FirstFieldOf(s.value, [], 'S');
      if m.Some? {
        RenderAfterM(h, m, s);
      } else if h.Some? {
        RenderAfterH(h, m, s);
        assert Component(m, 'M') + sp == sp;
      } else {
        assert t == sp;
        FieldsWithoutSep(t, 'M');
      }
    }
  }

  /** For decimal components, `PT{h}H{m}M{s}S` with any subset of the three present
      (in that order) denotes `3600*h + 60*m + s`; absent components count as 0. With
      hours and seconds but no minutes, the seconds are read after the `H`. */
  lemma WellFormedDuration(h: Option<string>, m: Option<string>, s: Option<string>)
    requires WellFormed(h) && WellFormed(m) && WellFormed(s)
    ensures PtToSeconds("PT" + Render(h, m, s))
            == 3600 * ComponentValue(h) + 60 * ComponentValue(m) + ComponentValue(s)
  {
    var t := Render(h, m, s);
    assert DropTwo("PT" + t) == t by {
      assert ("PT" + t)[..2] == "PT";
    }
    RenderHours(h, m, s);
    RenderMinutes(h, m, s);
    RenderSeconds(h, m, s);
  }

  /** A day part is not expected: in `P{d}DT{h}H` the hours text still holds the `D`
      (for `P1DT2H` it is `DT2`), so the result is the failure value. */
  lemma DayPartFails(d: string, h: string)
    requires IsDigits(d) && IsDigits(h)
    ensures PtToSeconds("P" + d + "DT" + h + "H") == -1
  {
    var iso := "P" + d + "DT" + h + "H";
    var t := d[1..] + "DT" + h;
    assert DropTwo(iso) == t + ['H'] + [] by {
      assert iso == "P" + [d[0]] + (t + "H");
      assert iso[..2] == "P" + [d[0]];
    }
    assert 'H' !in d[1..] by {
      DigitsHaveNoMarker(d, 'H');
    }
    assert 'H' !in h by {
      DigitsHaveNoMarker(h, 'H');
    }
    FirstFieldOf(t, [], 'H');
    assert t[|d| - 1] == 'D';
    assert !IsDigits(t);
  }

  /** An empty hours text is a parse failure, whatever follows. */
  lemma EmptyHoursFails(rest: string)
    ensures PtToSeconds("PTH" + rest) == -1
  {
    var iso := "PTH" + rest;
    assert DropTwo(iso) == [] + ['H'] + rest by {
      assert iso[..2] == "PT";
    }
    FirstFieldOf([], rest, 'H');
  }

  /** The first two characters are dropped whatever they are, and a string of at most
      two characters has no components and denotes 0 seconds. */
  lemma FirstTwoIgnored(a: char, b: char, rest: string, short: string)
    requires |short| <= 2
    ensures PtToSeconds([a, b] + rest) == PtToSeconds("PT" + rest)
    ensures PtToSeconds(short) == 0
  {
    assert DropTwo([a, b] + rest) == rest by {
      assert ([a, b] + rest)[..2] == [a, b];
    }
    assert DropTwo("PT" + rest) == rest by {
      assert ("PT" + rest)[..2] == "PT";
    }
  }
}
