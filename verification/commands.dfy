/** The compact command strings the grill's command endpoint accepts
    (traeger.py, the builders around `send_command`). */
module Commands {
  import opened Optional
  import opened Decimal

  datatype Command =
    | RequestState             // "90": ask the grill to publish its full state
    | SetGrillTemp(temp: int)  // "11,<temp>"
    | SetProbeTemp(temp: int)  // "14,<temp>"
    | SetTimer(seconds: int)   // "12,<seconds>"
    | Shutdown                 // "17": begin the shutdown sequence
    | Switch(code: int)        // a bare switch code, e.g. 18/19 keep warm, 20/21 super smoke

  function Encode(c: Command): string
  {
    match c
    case RequestState => "90"
    case SetGrillTemp(t) => "11," + IntToString(t)
    case SetProbeTemp(t) => "14," + IntToString(t)
    case SetTimer(s) => "12," + IntToString(s)
    case Shutdown => "17"
    case Switch(code) => IntToString(code)
  }

  /** A bare switch code 90 or 17 is sent as the very same text as the
      state request or the shutdown command; this names the command the
      grill actually receives. */
  function Canonical(c: Command): Command
  {
    match c
    case Switch(90) => RequestState
    case Switch(17) => Shutdown
    case _ => c
  }

  /** Reads a command string back. */
  function Decode(s: string): Option<Command>
  {
    if |s| >= 3 && s[2] == ',' then
      match ParseInt(s[3..])
      case None => None
      case Some(v) =>
        if s[..2] == "11" then Some(SetGrillTemp(v))
        else if s[..2] == "14" then Some(SetProbeTemp(v))
        else if s[..2] == "12" then Some(SetTimer(v))
        else None
    else if s == "90" then Some(RequestState)
    else if s == "17" then Some(Shutdown)
    else
      match ParseInt(s)
      case None => None
      case Some(v) => Some(Switch(v))
  }

  /** Decimal text never holds a comma at its third position. */
  lemma NoCommaInNumber(n: int)
    ensures var s := IntToString(n); !(|s| >= 3 && s[2] == ',')
  {
    var s := IntToString(n);
    if |s| >= 3 {
      if n >= 0 {
        assert IsDigit(s[2]);
      } else {
        assert s[2] == s[1..][1];
        assert IsDigit(s[1..][1]);
      }
    }
  }

  lemma ParameterRoundTrip(prefix: string, n: int)
    requires |prefix| == 2
    ensures var s := prefix + "," + IntToString(n);
      |s| >= 3 && s[2] == ',' && s[..2] == prefix && ParseInt(s[3..]) == Some(n)
  {
    var s := prefix + "," + IntToString(n);
    assert s[3..] == IntToString(n);
    assert s[..2] == prefix;
    IntRoundTrip(n);
  }

  lemma GrillTempDecodes(t: int)
    ensures Decode(Encode(SetGrillTemp(t))) == Some(SetGrillTemp(t))
  {
    var s := "11" + "," + IntToString(t);
    assert Encode(SetGrillTemp(t)) == s;
    ParameterRoundTrip("11", t);
    assert s[..2] == "11";
  }

  lemma ProbeTempDecodes(t: int)
    ensures Decode(Encode(SetProbeTemp(t))) == Some(SetProbeTemp(t))
  {
    var s := "14" + "," + IntToString(t);
    assert Encode(SetProbeTemp(t)) == s;
    ParameterRoundTrip("14", t);
    assert s[..2] == "14" && s[..2] != "11";
  }

  lemma TimerDecodes(t: int)
    ensures Decode(Encode(SetTimer(t))) == Some(SetTimer(t))
  {
    var s := "12" + "," + IntToString(t);
    assert Encode(SetTimer(t)) == s;
    ParameterRoundTrip("12", t);
    assert s[..2] == "12" && s[..2] != "11" && s[..2] != "14";
  }

  /** Every command string decodes to the command the grill will act on. */
  lemma EncodeDecode(c: Command)
    ensures Decode(Encode(c)) == Some(Canonical(c))
  {
    if c.Switch? {
      SwitchRoundTrip(c.code);
    } else if c.SetGrillTemp? {
      GrillTempDecodes(c.temp);
    } else if c.SetProbeTemp? {
      ProbeTempDecodes(c.temp);
    } else if c.SetTimer? {
      TimerDecodes(c.seconds);
    } else if c.RequestState? {
      assert Encode(c) == "90";
    } else {
      assert Encode(c) == "17";
    }
  }

  lemma SwitchRoundTrip(code: int)
    ensures Decode(Encode(Switch(code))) == Some(Canonical(Switch(code)))
  {
    var s := IntToString(code);
    assert Encode(Switch(code)) == s;
    NoCommaInNumber(code);
    IntRoundTrip(code);
    if code == 90 {
      assert s == "90";
    } else if code == 17 {
      assert s == "17";
    } else {
      if s == "90" {
        IntToStringInjective(code, 90);
      }
      if s == "17" {
        IntToStringInjective(code, 17);
      }
      assert Decode(s) == Some(Switch(code));
    }
  }

  /** Two commands share a string only when the grill reads them as one. */
  lemma EncodeInjective(a: Command, b: Command)
    requires Encode(a) == Encode(b)
    ensures Canonical(a) == Canonical(b)
  {
    EncodeDecode(a);
    EncodeDecode(b);
  }
}
