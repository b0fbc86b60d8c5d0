/** The detector registry of the `Detectors` class (ecgdetectors.py,
    `detector_list` and `get_detector_list`). */
module Registry {

  /** The six detection algorithms a `Detectors` object offers. */
  datatype Detector = TwoAverage | Engzee | Christov | Hamilton | PanTompkins | Wqrs

  /** The (description, detector) pairs, in the order the class lists them. */
  function DetectorList(): (r: seq<(string, Detector)>)
    ensures |r| == 6
    ensures forall j, k :: 0 <= j < k < |r| ==> r[j].0 != r[k].0 && r[j].1 != r[k].1
    ensures forall d: Detector :: r[Position(d)].1 == d
  {
    var r := [
      ("Elgendi et al (Two average)", TwoAverage),
      ("Engzee", Engzee),
      ("Christov", Christov),
      ("Hamilton", Hamilton),
      ("Pan Tompkins", PanTompkins),
      ("WQRS", Wqrs)
    ];
    r
  }

  /** Where each detector sits in the list. */
  function Position(d: Detector): (k: nat)
    ensures k < 6
  {
    match d
    case TwoAverage => 0
    case Engzee => 1
    case Christov => 2
    case Hamilton => 3
    case PanTompkins => 4
    case Wqrs => 5
  }

  /** Position and list agree: the list is a bijection between positions and detectors. */
  lemma PositionInverse(d: Detector, k: nat)
    requires k < 6
    ensures DetectorList()[Position(d)].1 == d
    ensures DetectorList()[k].1 == d <==> k == Position(d)
  {
  }
}
