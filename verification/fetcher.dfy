/**
 The snapshot normaliser of the fetcher (`get_airplanes`): the decoded
 response of the bulk state endpoint becomes a list of `Airplane` records,
 one per state vector that carries both coordinates, tagged with the
 vector's position in the response.
 */
module Fetcher {
  import opened Wrappers
  import Decimal

  /** A decoded JSON value, as found in a state vector. */
  datatype Value =
    | Null
    | Bool(b: bool)
    | Number(n: real)
    | Text(s: string)
    | Array(items: seq<Value>)
    | Object(members: seq<(string, Value)>)

  /** A coordinate is any value other than null; it is copied, never computed with. */
  type Coordinate = v: Value | v != Null witness Number(0.0)

  /** One raw state vector of the response's `states` list. */
  type Entry = seq<Value>

  datatype Airplane = Airplane(id: string, latitude: Coordinate, longitude: Coordinate)

  /**
   What the HTTP exchange delivered.
   - RequestFailed: a transport error, a status `raise_for_status` rejects, or an
     undecodable body; all of these are `RequestException`s.
   - NotAnObject: the body decoded to JSON that has no `.get` (a list, a string, ...).
   - Body: a decoded object; `states` is None when the key is absent, null or falsy.
   */
  datatype Response =
    | RequestFailed
    | NotAnObject
    | Body(states: Option<seq<Entry>>)

  /** An exception that escapes `get_airplanes` (it only catches `RequestException`). */
  datatype Escape =
    | IndexError(entry: nat)
    | AttributeError

  const LongitudeIndex: nat := 5
  const LatitudeIndex: nat := 6
  const IdPrefix := "airplane_"

  /** Evaluating `state[5] is not None and state[6] is not None` raises on this entry. */
  predicate Crashes(e: Entry) {
    |e| <= LongitudeIndex || (e[LongitudeIndex] != Null && |e| <= LatitudeIndex)
  }

  /** The entry carries both coordinates. */
  predicate Kept(e: Entry) {
    |e| > LatitudeIndex && e[LongitudeIndex] != Null && e[LatitudeIndex] != Null
  }

  /**
   The filter test of the loop with Python's short-circuit `and`: None when
   an index is out of range, otherwise whether the entry is kept.
   */
  function PositionTest(e: Entry): (r: Option<bool>)
    ensures r == None <==> Crashes(e)
    ensures r == Some(true) <==> Kept(e)
  {
    if |e| <= LongitudeIndex then None
    else if e[LongitudeIndex] == Null then Some(false)
    else if |e| <= LatitudeIndex then None
    else Some(e[LatitudeIndex] != Null)
  }

  /** The id given to the entry at input position `i`. */
  function Tag(i: nat): (id: string)
    ensures |id| > |IdPrefix| && id[..|IdPrefix|] == IdPrefix
  {
    IdPrefix + Decimal.Show(i)
  }

  /** Recovers the input position from an id; None for anything `Tag` cannot produce. */
  function ParseTag(id: string): (r: Option<nat>)
  {
    if |id| > |IdPrefix| && id[..|IdPrefix|] == IdPrefix && Decimal.Canonical(id[|IdPrefix|..])
    then Decimal.Parse(id[|IdPrefix|..])
    else None
  }

  /** The record built from a kept entry: latitude from index 6, longitude from index 5. */
  function Record(i: nat, e: Entry): (a: Airplane)
    requires Kept(e)
  {
    Airplane(Tag(i), e[LatitudeIndex], e[LongitudeIndex])
  }

  /**
   The input positions at or after `from` whose entries are kept, ascending:
   the reference description of the filter.
   */
  function KeptIndices(states: seq<Entry>, from: nat): (ks: seq<nat>)
    requires from <= |states|
    ensures |ks| <= |states| - from
    ensures forall j :: 0 <= j < |ks| ==> from <= ks[j] < |states| && Kept(states[ks[j]])
    ensures forall j1, j2 :: 0 <= j1 < j2 < |ks| ==> ks[j1] < ks[j2]
    ensures forall i :: from <= i < |states| && Kept(states[i]) ==> i in ks
    decreases |states| - from
  {
    if from == |states| then []
    else if Kept(states[from]) then [from] + KeptIndices(states, from + 1)
    else KeptIndices(states, from + 1)
  }

  /** The records of the kept entries, in input order. */
  function Selected(states: seq<Entry>): seq<Airplane>
  {
    var ks := KeptIndices(states, 0);
    seq(|ks|, j requires 0 <= j < |ks| => Record(ks[j], states[ks[j]]))
  }

  /**
   The body of the `for i, state in enumerate(states)` loop from position
   `from` on: the first entry whose test raises ends the scan with an
   IndexError, otherwise the kept entries are turned into records.
   */
  function Scan(states: seq<Entry>, from: nat): Result<seq<Airplane>, Escape>
    requires from <= |states|
    decreases |states| - from
  {
    if from == |states| then Success([])
    else
      match PositionTest(states[from])
      case None => Failure(IndexError(from))
      case Some(keep) =>
        match Scan(states, from + 1)
        case Failure(e) => Failure(e)
        case Success(rest) =>
          Success(if keep then [Record(from, states[from])] + rest else rest)
  }

  /** The scan fails exactly when some entry's test raises, and then at the first such entry. */
  lemma {:induction false} ScanFailure(states: seq<Entry>, from: nat)
    requires from <= |states|
    ensures Scan(states, from).Failure? <==> exists i :: from <= i < |states| && Crashes(states[i])
    ensures Scan(states, from).Failure? ==>
              var e := Scan(states, from).error;
              && e.IndexError?
              && from <= e.entry < |states|
              && Crashes(states[e.entry])
              && forall i :: from <= i < e.entry ==> !Crashes(states[i])
    decreases |states| - from
  {
    if from < |states| {
      ScanFailure(states, from + 1);
    }
  }

  /** A scan that raises nothing yields the records of the kept entries, in input order. */
  lemma {:induction false} ScanSuccess(states: seq<Entry>, from: nat)
    requires from <= |states|
    ensures Scan(states, from).Success? ==>
              var out := Scan(states, from).value;
              var ks := KeptIndices(states, from);
              && |out| == |ks|
              && forall j :: 0 <= j < |ks| ==> out[j] == Record(ks[j], states[ks[j]])
    decreases |states| - from
  {
    if from < |states| && Scan(states, from).Success? {
      ScanSuccess(states, from + 1);
      var rest := Scan(states, from + 1).value;
      var ks' := KeptIndices(states, from + 1);
      if Kept(states[from]) {
        var out := Scan(states, from).value;
        var ks := KeptIndices(states, from);
        assert out == [Record(from, states[from])] + rest;
        assert ks == [from] + ks';
        forall j | 0 <= j < |ks|
          ensures out[j] == Record(ks[j], states[ks[j]])
        {
          if j > 0 {
            assert out[j] == rest[j - 1];
            assert ks[j] == ks'[j - 1];
          }
        }
      }
    }
  }

  /** A body whose `states` list holds at least one entry. */
  predicate HasStates(response: Response) {
    response.Body? && response.states.Some? && |response.states.value| > 0
  }

  /**
   `get_airplanes` with the HTTP exchange given as `response`: a failed
   request, or a body without states, yields the empty list; an entry too
   short for the coordinate test lets an IndexError escape.
   */
  function GetAirplanes(response: Response): (r: Result<seq<Airplane>, Escape>)
    ensures r.Failure? <==>
              || response.NotAnObject?
              || (HasStates(response) && exists i :: 0 <= i < |response.states.value| && Crashes(response.states.value[i]))
    ensures response.NotAnObject? ==> r == Failure(AttributeError)
    ensures r.Failure? && response.Body? ==>
              && r.error.IndexError?
              && r.error.entry < |response.states.value|
              && Crashes(response.states.value[r.error.entry])
              && forall i :: 0 <= i < r.error.entry ==> !Crashes(response.states.value[i])
    ensures r.Success? && !HasStates(response) ==> r.value == []
    ensures r.Success? && HasStates(response) ==> r.value == Selected(response.states.value)
  {
    match response
    case RequestFailed => Success([])
    case NotAnObject => Failure(AttributeError)
    case Body(states) =>
      if states.None? || |states.value| == 0 then Success([])
      else
        ScanFailure(states.value, 0);
        ScanSuccess(states.value, 0);
        Scan(states.value, 0)
  }

  // ---------------------------------------------------------------------
  // Properties of the normaliser
  // ---------------------------------------------------------------------

  /** An id names exactly one input position. */
  lemma TagRoundTrip(i: nat, id: string)
    ensures ParseTag(Tag(i)) == Some(i)
    ensures ParseTag(id) == Some(i) <==> id == Tag(i)
  {
    var t := Tag(i);
    assert t[|IdPrefix|..] == Decimal.Show(i);
    Decimal.ShowParse(i);
    if ParseTag(id) == Some(i) {
      var digits := id[|IdPrefix|..];
      Decimal.ParseShow(digits);
      assert id == IdPrefix + digits;
    }
  }

  lemma TagInjective(i: nat, k: nat)
    ensures Tag(i) == Tag(k) <==> i == k
  {
    TagRoundTrip(i, Tag(k));
    TagRoundTrip(k, Tag(k));
  }

  /** Every output record comes from a kept input entry, with its coordinates swapped into name. */
  lemma SelectedSound(states: seq<Entry>, j: nat)
    requires j < |Selected(states)|
    ensures exists i :: 0 <= i < |states| && Kept(states[i]) && Selected(states)[j] == Record(i, states[i])
  {
    var ks := KeptIndices(states, 0);
    assert Selected(states)[j] == Record(ks[j], states[ks[j]]);
  }

  /**
   Every kept input entry yields exactly one output record: the one whose id
   names its position. A coordinate equal to 0 is present, so it counts.
   */
  lemma SelectedComplete(states: seq<Entry>, i: nat)
    requires i < |states| && Kept(states[i])
    ensures exists j :: 0 <= j < |Selected(states)| && Selected(states)[j] == Record(i, states[i])
    ensures forall j :: 0 <= j < |Selected(states)| && Selected(states)[j].id == Tag(i) ==>
              Selected(states)[j] == Record(i, states[i])
  {
    var out := Selected(states);
    var ks := KeptIndices(states, 0);
    var j :| 0 <= j < |ks| && ks[j] == i;
    assert out[j] == Record(i, states[i]);
    forall j' | 0 <= j' < |out| && out[j'].id == Tag(i)
      ensures out[j'] == Record(i, states[i])
    {
      assert out[j'].id == Tag(ks[j']);
      TagInjective(ks[j'], i);
    }
  }

  /**
   The output keeps input order and is no longer than the input; each id
   decodes to its entry's input position, and these positions strictly
   increase, so ids are pairwise distinct.
   */
  lemma SelectedOrder(states: seq<Entry>)
    ensures |Selected(states)| <= |states|
    ensures forall j :: 0 <= j < |Selected(states)| ==>
              && ParseTag(Selected(states)[j].id).Some?
              && ParseTag(Selected(states)[j].id).value < |states|
    ensures forall j1, j2 :: 0 <= j1 < j2 < |Selected(states)| ==>
              ParseTag(Selected(states)[j1].id).value < ParseTag(Selected(states)[j2].id).value
    ensures forall j1, j2 :: 0 <= j1 < j2 < |Selected(states)| ==>
              Selected(states)[j1].id != Selected(states)[j2].id
  {
    var out := Selected(states);
    var ks := KeptIndices(states, 0);
    forall j | 0 <= j < |out|
      ensures ParseTag(out[j].id) == Some(ks[j])
    {
      TagRoundTrip(ks[j], out[j].id);
    }
  }

  /** A failed request or a body without states yields the empty list and raises nothing. */
  lemma NoDataYieldsEmpty(response: Response)
    requires response.RequestFailed? || (response.Body? && !HasStates(response))
    ensures GetAirplanes(response) == Success([])
  {
  }

  /**
   A length-6 entry with a null longitude does not raise: the `and` stops
   before index 6 is read. With a present longitude it raises.
   */
  lemma ShortEntryBoundary(e: Entry)
    requires |e| == LatitudeIndex
    ensures Crashes(e) <==> e[LongitudeIndex] != Null
    ensures !Kept(e)
  {
  }

  /** Two vectors; the second has a null longitude, so only `airplane_0` is kept. */
  lemma Example()
    ensures
      var lon := Number(12.5);
      var lat := Number(45.1);
      var v1 := [Null, Null, Null, Null, Null, lon, lat, Null];
      var v2 := [Null, Null, Null, Null, Null, Null, lat, Null];
      GetAirplanes(Body(Some([v1, v2]))) == Success([Airplane("airplane_0", lat, lon)])
  {
    var lon := Number(12.5);
    var lat := Number(45.1);
    var v1: Entry := [Null, Null, Null, Null, Null, lon, lat, Null];
    var v2: Entry := [Null, Null, Null, Null, Null, Null, lat, Null];
    var states := [v1, v2];
    assert Decimal.Show(0) == "0";
    assert Tag(0) == "airplane_0";
    assert KeptIndices(states, 0) == [0];
    assert Selected(states) == [Record(0, v1)];
  }
}
