/** The datagram text `send_color_to_wiz` sends (ambilight.py:131-135): the
    `json.dumps` rendering of a `setPilot` command with integer r, g and b.
    `json.dumps` keeps the keys in insertion order and separates items with
    ", " and keys from values with ": "; all of it is ASCII, so the encoded
    bytes are these characters. */
module BulbCommand {
  import opened Colors
  import opened Text

  const HEAD := "{\"method\": \"setPilot\", \"params\": {\"r\": "
  const GREEN_KEY := " \"g\": "
  const BLUE_KEY := " \"b\": "
  const TAIL := "}}"

  /** `json.dumps({"method": "setPilot", "params": {"r": r, "g": g, "b": b}})`:
      its three number fields are exactly the decimal texts of r, g and b. */
  function Payload(c: Color): (p: string)
    ensures Fields(p) == Some((IntToString(c.r), IntToString(c.g), IntToString(c.b)))
  {
    var rs, gs, bs := IntToString(c.r), IntToString(c.g), IntToString(c.b);
    var afterBlueKey := bs + TAIL;
    var afterGreen := BLUE_KEY + afterBlueKey;
    var afterGreenKey := gs + "," + afterGreen;
    var afterRed := GREEN_KEY + afterGreenKey;
    var afterHead := rs + "," + afterRed;
    StripPrefixJoin(HEAD, afterHead);
    IntToStringHasNo(c.r, ',');
    SplitAtJoin(rs, ',', afterRed);
    StripPrefixJoin(GREEN_KEY, afterGreenKey);
    IntToStringHasNo(c.g, ',');
    SplitAtJoin(gs, ',', afterGreen);
    StripPrefixJoin(BLUE_KEY, afterBlueKey);
    StripSuffixJoin(bs, TAIL);
    HEAD + afterHead
  }

  /** The three number texts of a `setPilot` payload, in r, g, b order. */
  function Fields(s: string): Option<(string, string, string)> {
    match StripPrefix(s, HEAD)
    case None => None
    case Some(afterHead) =>
      match SplitAt(afterHead, ',')
      case None => None
      case Some((rs, afterRed)) =>
        match StripPrefix(afterRed, GREEN_KEY)
        case None => None
        case Some(afterGreenKey) =>
          match SplitAt(afterGreenKey, ',')
          case None => None
          case Some((gs, afterGreen)) =>
            match StripPrefix(afterGreen, BLUE_KEY)
            case None => None
            case Some(afterBlueKey) =>
              match StripSuffix(afterBlueKey, TAIL)
              case None => None
              case Some(bs) => Some((rs, gs, bs))
  }

  /** Reads the three channels back out of a `setPilot` payload. */
  function ParsePayload(s: string): Option<Color> {
    match Fields(s)
    case None => None
    case Some((rs, gs, bs)) =>
      match (ParseInt(rs), ParseInt(gs), ParseInt(bs))
      case (Some(r), Some(g), Some(b)) => Some(Color(r, g, b))
      case _ => None
  }

  /** Parsing the payload gives back the three integers that were sent. */
  lemma PayloadRoundTrip(c: Color)
    ensures ParsePayload(Payload(c)) == Some(c)
  {
    IntToStringRoundTrip(c.r);
    IntToStringRoundTrip(c.g);
    IntToStringRoundTrip(c.b);
  }

  /** Different colours give different datagrams. */
  lemma PayloadInjective(c1: Color, c2: Color)
    requires Payload(c1) == Payload(c2)
    ensures c1 == c2
  {
    PayloadRoundTrip(c1);
    PayloadRoundTrip(c2);
  }

  /** The datagram for pure red, character for character. */
  lemma RedPayload()
    ensures Payload(Color(255, 0, 0)) == "{\"method\": \"setPilot\", \"params\": {\"r\": 255, \"g\": 0, \"b\": 0}}"
  {
    assert IntToString(255) == "255";
    assert IntToString(0) == "0";
    var blue := BLUE_KEY + ("0" + TAIL);
    assert blue == " \"b\": 0}}";
    var green := GREEN_KEY + ("0" + "," + blue);
    assert green == " \"g\": 0, \"b\": 0}}";
    assert HEAD + ("255" + "," + green) == "{\"method\": \"setPilot\", \"params\": {\"r\": 255, \"g\": 0, \"b\": 0}}";
  }
}
