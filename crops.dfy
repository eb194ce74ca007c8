/** Crop records and the list transforms of the crop page (src/pages/Index.tsx,
    src/components/CropCard.tsx). */
module Crops {

  /** The five growth stages a crop can be in. */
  datatype GrowthStage = Seeding | Growing | Flowering | Harvesting | Harvested

  /** Every field of a crop but its id (`Omit<Crop, 'id'>`). */
  datatype CropFields = CropFields(
    name: string,
    variety: string,
    plantDate: string,
    growthStage: GrowthStage,
    expectedHarvest: string,
    location: string,
    area: string,
    yieldPrediction: string,
    pestControl: string)

  /** A crop: an id and its fields. */
  datatype Crop = Crop(id: string, fields: CropFields)

  /** The two crops the page starts with. */
  const InitialCrops: seq<Crop> := [
    Crop("1", CropFields("Winter Wheat", "Hard Red Winter", "2024-10-15", Growing, "2025-06-15",
                         "Field A-North", "120 acres", "65 bushels per acre",
                         "Integrated Pest Management with monthly monitoring")),
    Crop("2", CropFields("Corn", "Pioneer P1197", "2024-05-01", Harvested, "2024-10-20",
                         "Field B-South", "200 acres", "180 bushels per acre",
                         "Bt technology with organic supplemental treatment"))
  ]

  /** `[...crops, { ...fields, id }]`: exactly one new crop, at the end. */
  function Appended(crops: seq<Crop>, fields: CropFields, id: string): (r: seq<Crop>)
    ensures |r| == |crops| + 1
    ensures r[..|crops|] == crops
    ensures r[|crops|] == Crop(id, fields)
  {
    crops + [Crop(id, fields)]
  }

  /** `crops.map(c => c.id === u.id ? u : c)`. */
  function Replaced(crops: seq<Crop>, u: Crop): (r: seq<Crop>)
    ensures |r| == |crops|
    ensures forall i :: 0 <= i < |crops| ==> r[i] == (if crops[i].id == u.id then u else crops[i])
  {
    if crops == [] then [] else [if crops[0].id == u.id then u else crops[0]] + Replaced(crops[1..], u)
  }

  /** `crops.filter(c => c.id !== id)`. */
  function Removed(crops: seq<Crop>, id: string): (r: seq<Crop>)
    ensures |r| <= |crops|
    ensures forall c :: c in r ==> c in crops && c.id != id
    ensures forall c :: c in crops && c.id != id ==> c in r
  {
    if crops == [] then []
    else if crops[0].id == id then Removed(crops[1..], id)
    else [crops[0]] + Removed(crops[1..], id)
  }

  /** The ids of a list of crops, in order. */
  function Ids(crops: seq<Crop>): (r: seq<string>)
    ensures |r| == |crops| && forall i :: 0 <= i < |crops| ==> r[i] == crops[i].id
  {
    if crops == [] then [] else [crops[0].id] + Ids(crops[1..])
  }

  /** The initial list holds two crops, with ids "1" and "2". */
  lemma InitialCropIds()
    ensures Ids(InitialCrops) == ["1", "2"]
  {
  }

  /** Updating keeps every id, so the order and the length of the list as well; an id
      that is not in the list leaves it unchanged. */
  lemma ReplacedKeepsIds(crops: seq<Crop>, u: Crop)
    ensures Ids(Replaced(crops, u)) == Ids(crops)
    ensures u.id !in Ids(crops) ==> Replaced(crops, u) == crops
  {
    var r := Replaced(crops, u);
    assert forall i :: 0 <= i < |crops| ==> Ids(r)[i] == Ids(crops)[i];
    if u.id !in Ids(crops) {
      assert forall i :: 0 <= i < |crops| ==> crops[i].id == Ids(crops)[i];
    }
  }

  /** Filtering distributes over concatenation: the crops that stay keep their
      relative order. */
  lemma {:induction false} RemovedDistributes(xs: seq<Crop>, ys: seq<Crop>, id: string)
    ensures Removed(xs + ys, id) == Removed(xs, id) + Removed(ys, id)
  {
    if xs == [] {
      assert xs + ys == ys;
    } else {
      assert (xs + ys)[0] == xs[0] && (xs + ys)[1..] == xs[1..] + ys;
      RemovedDistributes(xs[1..], ys, id);
      if xs[0].id != id {
        assert [xs[0]] + Removed(xs[1..], id) + Removed(ys, id)
            == [xs[0]] + (Removed(xs[1..], id) + Removed(ys, id));
      }
    }
  }

  /** Deleting an id that is not in the list changes nothing. */
  lemma {:induction false} RemovedAbsent(crops: seq<Crop>, id: string)
    requires id !in Ids(crops)
    ensures Removed(crops, id) == crops
  {
    if crops != [] {
      assert Ids(crops[1..]) == Ids(crops)[1..];
      RemovedAbsent(crops[1..], id);
    }
  }

  /** Deleting twice is deleting once. */
  lemma RemovedIdempotent(crops: seq<Crop>, id: string)
    ensures Removed(Removed(crops, id), id) == Removed(crops, id)
  {
    var r := Removed(crops, id);
    assert forall i :: 0 <= i < |r| ==> Ids(r)[i] == r[i].id && r[i] in r;
    RemovedAbsent(r, id);
  }

  /** Deleting removes every crop with that id and only those: the count of crops with
      any other id is unchanged. */
  lemma {:induction false} RemovedCounts(crops: seq<Crop>, id: string)
    ensures forall c: Crop :: c.id == id ==> multiset(Removed(crops, id))[c] == 0
    ensures forall c: Crop :: c.id != id ==> multiset(Removed(crops, id))[c] == multiset(crops)[c]
  {
    if crops != [] {
      RemovedCounts(crops[1..], id);
      assert crops == [crops[0]] + crops[1..];
    }
  }

  /** Deleting the id of a crop just added under a fresh id gives back the list as it was. */
  lemma AddThenDeleteRestores(crops: seq<Crop>, fields: CropFields, id: string)
    requires id !in Ids(crops)
    ensures Removed(Appended(crops, fields, id), id) == crops
  {
    RemovedDistributes(crops, [Crop(id, fields)], id);
    RemovedAbsent(crops, id);
  }

  /** Updating with the same crop twice is updating once. */
  lemma ReplacedIdempotent(crops: seq<Crop>, u: Crop)
    ensures Replaced(Replaced(crops, u), u) == Replaced(crops, u)
  {
  }

  /** Deleting an id after updating it is the same as deleting it straight away: an
      update never creates or removes a crop. */
  lemma {:induction false} ReplacedThenRemoved(crops: seq<Crop>, u: Crop)
    ensures Removed(Replaced(crops, u), u.id) == Removed(crops, u.id)
  {
    if crops != [] {
      var r := Replaced(crops, u);
      assert r[1..] == Replaced(crops[1..], u);
      ReplacedThenRemoved(crops[1..], u);
    }
  }
}
