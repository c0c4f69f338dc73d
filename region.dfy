/** The `region` setting of section `fgfwproxy` (fgfw-lite/config.py line
    106): region codes separated by `|`, kept upper-cased, whitespace-only
    pieces dropped. Pieces are not stripped. */
module Region {
  import opened PyStr

  /** The upper-cased pieces between vertical bars, leaving out the pieces
      that are only whitespace. */
  function RegionSet(setting: string): set<string>
  {
    set p | p in Split(setting, '|') && !AllSpace(p) :: Upper(p)
  }

  /** Every region code is upper-case and holds something other than
      whitespace. */
  lemma RegionCodesUpper(setting: string)
    ensures forall x :: x in RegionSet(setting) ==> NoLower(x) && !AllSpace(x)
  {
  }

  /** The default (empty) setting names no region. */
  lemma RegionEmpty()
    ensures RegionSet("") == {}
  {
    assert Split("", '|') == [""];
  }

  /** A single piece contributes its upper-cased self, unless it is only
      whitespace. */
  lemma {:induction false} RegionPiece(p: string)
    requires '|' !in p
    ensures RegionSet(p) == if AllSpace(p) then {} else {Upper(p)}
  {
    SplitNoSep(p, '|');
  }

  /** Each `|` splits the setting into parts whose regions are united. */
  lemma {:induction false} RegionConcat(a: string, b: string)
    ensures RegionSet(a + "|" + b) == RegionSet(a) + RegionSet(b)
  {
    assert a + "|" + b == a + ['|'] + b;
    SplitConcat(a, '|', b);
    var pa, pb := Split(a, '|'), Split(b, '|');
    assert forall p :: p in pa + pb <==> p in pa || p in pb;
  }

  /** The regions of a setting are those of its upper-cased text. */
  lemma {:induction false} RegionOfUpper(s: string)
    ensures RegionSet(Upper(s)) == RegionSet(s)
    decreases |s|
  {
    match RSplitOnce(s, '|')
    case None =>
      assert '|' !in Upper(s) by {
        forall i | 0 <= i < |s| ensures Upper(s)[i] != '|' {
          assert s[i] != '|';
        }
      }
      RegionPiece(s);
      RegionPiece(Upper(s));
      UpperIdempotent(s);
    case Some((a, b)) =>
      assert s == a + "|" + b;
      UpperConcat(a, "|", b);
      RegionConcat(a, b);
      RegionConcat(Upper(a), Upper(b));
      RegionOfUpper(a);
      RegionOfUpper(b);
  }

  /** Case does not matter: `hk|Us` and `HK|US` name the same regions. */
  lemma RegionCaseInsensitive(a: string, b: string)
    requires Upper(a) == Upper(b)
    ensures RegionSet(a) == RegionSet(b)
  {
    RegionOfUpper(a);
    RegionOfUpper(b);
  }
}
