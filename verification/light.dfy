/**
 * Lights (core/light/light.cpp): reading a light component from its JSON
 * description, and the registry of live lights, in which every light
 * knows its own position.
 */
module Lights {
  import opened Wrappers
  import opened Sequences

  datatype LightType = Directional | Point | Spot

  /** A JSON value, as far as a light component reads one; numbers are reals here. */
  datatype Json = JString(text: string) | JNumber(number: real) | JBool(flag: bool) | JNull | JArray(items: seq<Json>)

  /**
   * LightType from JSON (lines 4-9): the name of a type selects it; any
   * other value selects the first entry of the table, DIRECTIONAL.
   */
  function TypeFromJson(j: Json): (r: LightType)
    ensures j == JString("POINT") <==> r == Point
    ensures j == JString("SPOT") <==> r == Spot
  {
    if j == JString("POINT") then Point
    else if j == JString("SPOT") then Spot
    else Directional
  }

  function TypeName(t: LightType): string
  {
    match t
    case Directional => "DIRECTIONAL"
    case Point => "POINT"
    case Spot => "SPOT"
  }

  /** Every type reads back from its name. */
  lemma TypeNameRoundTrip(t: LightType)
    ensures TypeFromJson(JString(TypeName(t))) == t
  {
  }

  /** A float field read from JSON: numbers and booleans convert, anything else is a type error. */
  function FloatFromJson(j: Json): (r: Option<real>)
    ensures r.Some? <==> j.JNumber? || j.JBool?
    ensures j.JNumber? ==> r == Some(j.number)
  {
    match j
    case JNumber(x) => Some(x)
    case JBool(b) => Some(if b then 1.0 else 0.0)
    case _ => None
  }

  /** The fields a light component sets. */
  datatype LightData = LightData(lightType: LightType, intensity: real, range: real, cutOffAngle: real)

  datatype LoadError = MissingField(name: string) | NotANumber(name: string)

  /** Reads an optional float field, keeping `current` when the field is absent. */
  function OptionalFloat(data: map<string, Json>, name: string, current: real): (r: Result<real, LoadError>)
    ensures name !in data ==> r == Success(current)
    ensures name in data ==> (r.Success? <==> FloatFromJson(data[name]).Some?)
    ensures r.Failure? ==> r.error == NotANumber(name)
  {
    if name !in data then Success(current)
    else match FloatFromJson(data[name])
      case Some(x) => Success(x)
      case None => Failure(NotANumber(name))
  }

  /**
   * Create (lines 11-21): Type and Intensity must be present, Range and
   * CutOffAngle keep their defaults when absent. `defaults` stands for the
   * member initializers of the Light class.
   */
  function Create(data: map<string, Json>, defaults: LightData): (r: Result<LightData, LoadError>)
    ensures "Type" !in data ==> r == Failure(MissingField("Type"))
    ensures "Type" in data && "Intensity" !in data ==> r == Failure(MissingField("Intensity"))
    ensures r.Success? <==>
      "Type" in data && "Intensity" in data
      && FloatFromJson(data["Intensity"]).Some?
      && ("Range" in data ==> FloatFromJson(data["Range"]).Some?)
      && ("CutOffAngle" in data ==> FloatFromJson(data["CutOffAngle"]).Some?)
    ensures r.Failure? && "Type" in data && "Intensity" in data ==>
      r.error in {NotANumber("Intensity"), NotANumber("Range"), NotANumber("CutOffAngle")}
    ensures r.Success? ==>
      "Type" in data && "Intensity" in data
      && r.value.lightType == TypeFromJson(data["Type"])
      && Some(r.value.intensity) == FloatFromJson(data["Intensity"])
      && ("Range" !in data ==> r.value.range == defaults.range)
      && ("Range" in data ==> Some(r.value.range) == FloatFromJson(data["Range"]))
      && ("CutOffAngle" !in data ==> r.value.cutOffAngle == defaults.cutOffAngle)
      && ("CutOffAngle" in data ==> Some(r.value.cutOffAngle) == FloatFromJson(data["CutOffAngle"]))
  {
    if "Type" !in data then Failure(MissingField("Type"))
    else
      var lightType := TypeFromJson(data["Type"]);
      if "Intensity" !in data then Failure(MissingField("Intensity"))
      else match FloatFromJson(data["Intensity"])
        case None => Failure(NotANumber("Intensity"))
        case Some(intensity) =>
          var range :- OptionalFloat(data, "Range", defaults.range);
          var cutOffAngle :- OptionalFloat(data, "CutOffAngle", defaults.cutOffAngle);
          Success(LightData(lightType, intensity, range, cutOffAngle))
  }

  /** With all four fields present as numbers, Create takes each of them. */
  lemma CreateReadsAllFields(lightType: LightType, intensity: real, range: real, cutOffAngle: real, defaults: LightData)
    ensures Create(map["Type" := JString(TypeName(lightType)), "Intensity" := JNumber(intensity),
                       "Range" := JNumber(range), "CutOffAngle" := JNumber(cutOffAngle)], defaults)
      == Success(LightData(lightType, intensity, range, cutOffAngle))
  {
    TypeNameRoundTrip(lightType);
  }

  /** A live light; m_Index is its position in the registry. */
  class Light {
    var index: nat

    constructor(index: nat)
      ensures this.index == index
    {
      this.index := index;
    }
  }

  /** s_Lights: the live lights. */
  class LightRegistry {
    var lights: seq<Light>

    /** Every light's index is its position. */
    ghost predicate Valid()
      reads this, lights
    {
      forall i :: 0 <= i < |lights| ==> lights[i].index == i
    }

    constructor()
      ensures Valid() && lights == []
    {
      lights := [];
    }

    /** A valid registry never holds a light twice. */
    lemma Distinct()
      requires Valid()
      ensures forall i, j :: 0 <= i < j < |lights| ==> lights[i] != lights[j]
    {
      forall i, j | 0 <= i < j < |lights|
        ensures lights[i] != lights[j]
      {
        assert lights[i].index == i && lights[j].index == j;
      }
    }

    /** Light() (lines 27-31): a new light is appended with its position as index. */
    method Add() returns (light: Light)
      requires Valid()
      modifies this
      ensures Valid()
      ensures fresh(light)
      ensures lights == old(lights) + [light] && light.index == |old(lights)|
    {
      light := new Light(|lights|);
      lights := lights + [light];
    }

    /**
     * ~Light() (lines 33-38): the last light takes the removed light's
     * position and index, and the registry shrinks by one.
     */
    method Remove(light: Light)
      requires Valid() && light in lights
      modifies this, lights
      ensures Valid()
      ensures |lights| == |old(lights)| - 1
      ensures lights == SwapRemove(old(lights), old(light.index))
      ensures multiset(lights) == multiset(old(lights)) - multiset{light}
      ensures light !in lights
    {
      Distinct();
      var i := light.index;
      var last := |lights| - 1;
      assert lights[i] == light by {
        var k :| 0 <= k < |lights| && lights[k] == light;
      }
      lights[last].index := i;
      lights := SwapRemove(lights, i);
      forall j | 0 <= j < |lights|
        ensures lights[j].index == j
      {
        if j != i {
          assert lights[j] == old(lights)[j] != old(lights)[last];
        }
      }
      forall k | 0 <= k < |lights|
        ensures lights[k] != light
      {
        assert lights[k] == old(lights)[if k == i then last else k];
      }
    }
  }
}
