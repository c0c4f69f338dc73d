/** The `listen` setting of section `fgfwproxy` (fgfw-lite/config.py lines
    49-53): a bare port number, or `host:port` split at the last colon. */
module Listen {
  import opened Wrappers
  import opened PyStr

  /** The value used when the setting is absent. */
  const DefaultListen: string := "8118"

  /** The host a bare port number is bound to. */
  const Loopback: string := "127.0.0.1"

  datatype Address = Address(host: string, port: int)

  /** Why `Config.__init__` raises on this value: the `rsplit` result has no
      second element (IndexError), or the port text is not an integer
      literal (ValueError). */
  datatype ListenError = MissingPort | BadPort(text: string)

  /** The address the listen setting denotes, or the exception it raises. */
  function ParseListen(v: string): (r: Result<Address, ListenError>)
    ensures IsDigits(v) ==> r == Ok(Address(Loopback, DigitsValue(v)))
    ensures !IsDigits(v) ==> (r == Err(MissingPort) <==> ':' !in v)
    ensures !IsDigits(v) && r.Ok? ==>
              var h := r.value.host;
              |h| < |v| && v == h + ":" + v[|h| + 1..]
              && ':' !in v[|h| + 1..]
              && ParseInt(v[|h| + 1..]) == Some(r.value.port)
    ensures r.Err? && r.error.BadPort? ==>
              ':' in v && ':' !in r.error.text && ParseInt(r.error.text).None?
    ensures !IsDigits(v) && ':' in v ==>
              var portText := RSplitOnce(v, ':').value.1;
              && (r.Ok? <==> ParseInt(portText).Some?)
              && (r.Err? ==> r.error == BadPort(portText))
  {
    if IsDigits(v) then Ok(Address(Loopback, DigitsValue(v)))
    else
      match RSplitOnce(v, ':')
      case None => Err(MissingPort)
      case Some((host, portText)) =>
        match ParseInt(portText)
        case Some(port) => Ok(Address(host, port))
        case None => Err(BadPort(portText))
  }

  /** The listen address for the setting as read, falling back to the default. */
  function ListenSetting(setting: Option<string>): Result<Address, ListenError> {
    ParseListen(setting.GetOr(DefaultListen))
  }

  /** Without the setting the proxy listens on 127.0.0.1:8118. */
  lemma ListenDefault()
    ensures ListenSetting(None) == Ok(Address(Loopback, 8118))
  {
    assert DefaultListen == DecimalString(8118) by {
      assert DecimalString(8) == "8";
      assert DecimalString(81) == DecimalString(8) + "1";
      assert DecimalString(811) == DecimalString(81) + "1";
      assert DecimalString(8118) == DecimalString(811) + "8";
    }
    ListenBarePort(8118);
  }

  /** A bare port number binds the loopback address on that port. */
  lemma ListenBarePort(n: nat)
    ensures ParseListen(DecimalString(n)) == Ok(Address(Loopback, n))
  {
  }

  /** `host:port` gives back that host and port, whatever colons the host
      itself holds. */
  lemma ListenHostPort(host: string, port: int)
    ensures var text := if port >= 0 then DecimalString(port) else "-" + DecimalString(-port);
            ParseListen(host + ":" + text) == Ok(Address(host, port))
  {
    var text := if port >= 0 then DecimalString(port) else "-" + DecimalString(-port);
    var v := host + ":" + text;
    assert ':' in v by { assert v[|host|] == ':'; }
    assert !IsDigits(v) by { assert v[|host|] == ':'; }
    assert ':' !in text by {
      if port < 0 {
        assert forall i :: 1 <= i < |text| ==> text[i] == DecimalString(-port)[i - 1];
      }
    }
    RSplitOnceOf(host, ':', text);
    ParseIntDecimal(port);
  }

  /** `int()` strips the port text, so a blank after the colon is allowed. */
  lemma ListenPortPadded(host: string, port: nat)
    ensures ParseListen(host + ": " + DecimalString(port)) == Ok(Address(host, port))
  {
    var digits := DecimalString(port);
    var text := " " + digits;
    var v := host + ":" + text;
    assert v == host + ": " + digits;
    assert v[|host|] == ':';
    assert ':' !in text by {
      assert forall i :: 1 <= i < |text| ==> text[i] == digits[i - 1];
    }
    RSplitOnceOf(host, ':', text);
    assert text == " " + digits + "";
    StripPadded(" ", digits, "");
    ParseIntDecimal(port);
  }

  /** A port that is not an integer literal raises ValueError. */
  lemma ListenBadPort()
    ensures ParseListen("h:abc") == Err(BadPort("abc"))
  {
    var v := "h:abc";
    assert v == "h" + [':'] + "abc";
    assert !IsDigit(v[0]);
    assert ':' !in "abc";
    RSplitOnceOf("h", ':', "abc");
    StripUnpadded("abc");
    assert !IsIntLiteral("abc") by {
      assert !IsDigit('a') && !IsSign('a');
    }
  }

  /** The split point is the last colon. */
  lemma ListenLastColon()
    ensures ParseListen("a:b:8118") == Ok(Address("a:b", 8118))
  {
    assert DecimalString(8) == "8";
    assert DecimalString(81) == DecimalString(8) + "1";
    assert DecimalString(811) == DecimalString(81) + "1";
    assert DecimalString(8118) == DecimalString(811) + "8";
    assert "a:b" + ":" + DecimalString(8118) == "a:b:8118";
    ListenHostPort("a:b", 8118);
  }

  /** A value that is neither a bare number nor holds a colon raises. */
  lemma ListenNoColon()
    ensures ParseListen("localhost") == Err(MissingPort)
    ensures ParseListen("") == Err(MissingPort)
  {
    var v := "localhost";
    assert !IsDigit(v[0]);
    assert ':' !in v by {
      forall i | 0 <= i < |v| ensures v[i] != ':' {
      }
    }
  }
}
