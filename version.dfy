/** The FIX protocol versions known to the application layer, with their two lookup tables:
    the display string and the name of the embedded QuickFIX definition file. */
module AppVersion {

  datatype Version =
    | Fix40
    | Fix41
    | Fix42
    | Fix43
    | Fix44
    | Fix50
    | Fix50SP1
    | Fix50SP2
    | Fixt11

  /** The string written by `Display for Version`. */
  function Display(v: Version): (s: string)
    ensures |s| > 0
  {
    match v
    case Fix40 => "FIX-4.0"
    case Fix41 => "FIX-4.1"
    case Fix42 => "FIX-4.2"
    case Fix43 => "FIX-4.3"
    case Fix44 => "FIX-4.4"
    case Fix50 => "FIX-5.0"
    case Fix50SP1 => "FIX-5.0-SP1"
    case Fix50SP2 => "FIX-5.0-SP2"
    case Fixt11 => "FIXT-1.1"
  }

  /** The file name `get_quickfix_spec` looks up among the embedded QuickFIX definitions. */
  function QuickfixFileName(v: Version): (name: string)
    ensures name == Display(v) + ".xml"
  {
    match v
    case Fix40 => "FIX-4.0.xml"
    case Fix41 => "FIX-4.1.xml"
    case Fix42 => "FIX-4.2.xml"
    case Fix43 => "FIX-4.3.xml"
    case Fix44 => "FIX-4.4.xml"
    case Fix50 => "FIX-5.0.xml"
    case Fix50SP1 => "FIX-5.0-SP1.xml"
    case Fix50SP2 => "FIX-5.0-SP2.xml"
    case Fixt11 => "FIXT-1.1.xml"
  }

  /** Every version, in declaration order, as `Version::all` yields them. */
  function All(): (vs: seq<Version>)
    ensures |vs| == 9
    ensures forall i, j | 0 <= i < j < |vs| :: vs[i] != vs[j]
  {
    [Fix40, Fix41, Fix42, Fix43, Fix44, Fix50, Fix50SP1, Fix50SP2, Fixt11]
  }

  /** `All()` leaves no version out. */
  lemma AllCoversEveryVersion(v: Version)
    ensures v in All()
  {
    var vs := All();
    match v
    case Fix40 => assert vs[0] == v;
    case Fix41 => assert vs[1] == v;
    case Fix42 => assert vs[2] == v;
    case Fix43 => assert vs[3] == v;
    case Fix44 => assert vs[4] == v;
    case Fix50 => assert vs[5] == v;
    case Fix50SP1 => assert vs[6] == v;
    case Fix50SP2 => assert vs[7] == v;
    case Fixt11 => assert vs[8] == v;
  }

  /** The nine display strings are pairwise distinct. */
  lemma DisplayInjective(v: Version, w: Version)
    requires Display(v) == Display(w)
    ensures v == w
  {
  }

  /** Appending a common suffix keeps distinct strings distinct. */
  lemma {:induction false} SuffixCancels(a: string, b: string, suffix: string)
    requires a + suffix == b + suffix
    ensures a == b
  {
    assert |a| == |b|;
    forall i | 0 <= i < |a|
      ensures a[i] == b[i]
    {
      assert a[i] == (a + suffix)[i] == (b + suffix)[i] == b[i];
    }
  }

  /** Distinct versions have distinct QuickFIX files, so the embedded definitions can all differ. */
  lemma QuickfixFileNameInjective(v: Version, w: Version)
    requires QuickfixFileName(v) == QuickfixFileName(w)
    ensures v == w
  {
    SuffixCancels(Display(v), Display(w), ".xml");
    DisplayInjective(v, w);
  }

  /** The file names of the versions `All()` yields are pairwise distinct, so a set collecting
      them has one element per version, as the distinct-definitions test expects. */
  lemma AllFileNamesDistinct()
    ensures forall i, j | 0 <= i < j < |All()| :: QuickfixFileName(All()[i]) != QuickfixFileName(All()[j])
  {
    var vs := All();
    forall i, j | 0 <= i < j < |vs|
      ensures QuickfixFileName(vs[i]) != QuickfixFileName(vs[j])
    {
      if QuickfixFileName(vs[i]) == QuickfixFileName(vs[j]) {
        QuickfixFileNameInjective(vs[i], vs[j]);
      }
    }
  }
}
