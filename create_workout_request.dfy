/**
 * The request model for creating a workout: a name trimmed as it is set, the
 * type id, and the optional difficulty and duration with their ranges.
 */
module CreateWorkoutRequest {
  import opened Wrappers
  import Text
  import WorkoutTypes
  import ValidationExtensions

  /** A trimming setter: the trimmed text is stored, and `null` stays `null`. */
  function Trimmed(value: Option<string>): (r: Option<string>)
    ensures r.None? <==> value.None?
    ensures r.Some? ==> r.value == Text.Trim(value.value)
  {
    if value.None? then None else Some(Text.Trim(value.value))
  }

  /** Setting what was read back stores the same value: trimming is idempotent. */
  lemma TrimmedRoundTrip(value: Option<string>)
    ensures Trimmed(Trimmed(value)) == Trimmed(value)
  {
    if value.Some? {
      Text.TrimIdempotent(value.value);
    }
  }

  /** `[Range(lo, hi)]` on a nullable number: an absent value passes. */
  predicate InRange(v: Option<int>, lo: int, hi: int)
  {
    v.None? || lo <= v.value <= hi
  }

  class Model {
    var name: Option<string>
    var typeId: int
    var scoreTypeId: Option<int>
    var difficultyLevel: Option<int>
    var estimatedDurationMinutes: Option<int>

    /** The name is as the setter stores it: reading it and setting it back changes nothing. */
    predicate Normalized()
      reads this
    {
      name == Trimmed(name)
    }

    constructor()
      ensures name.None? && typeId == 0 && scoreTypeId.None? && Normalized()
      ensures difficultyLevel.None? && estimatedDurationMinutes.None?
    {
      name := None;
      typeId := 0;
      scoreTypeId := None;
      difficultyLevel := None;
      estimatedDurationMinutes := None;
    }

    /** The `Name` setter. */
    method SetName(value: Option<string>)
      modifies this
      ensures name == Trimmed(value)
      ensures typeId == old(typeId) && scoreTypeId == old(scoreTypeId)
      ensures difficultyLevel == old(difficultyLevel) && estimatedDurationMinutes == old(estimatedDurationMinutes)
      ensures Normalized()
    {
      TrimmedRoundTrip(value);
      name := Trimmed(value);
    }

    /** The range attributes: difficulty 1..5 and duration 1..600 minutes, each when given. */
    predicate AnnotationsValid()
      reads this
    {
      InRange(difficultyLevel, 1, 5) && InRange(estimatedDurationMinutes, 1, 600)
    }

    /** The validator's messages, in rule order. */
    function Errors(): (r: seq<string>)
      reads this
      ensures r == [] <==> (ValidationExtensions.TrimLength(name, Some(3), Some(25))
                            && WorkoutTypes.IsDefinedType(typeId))
      ensures |r| <= 2
    {
      NameErrors(name) + TypeErrors(typeId)
    }
  }

  /** `Name` must trim to 3..25 UTF-16 code units. */
  function NameErrors(name: Option<string>): (r: seq<string>)
    ensures r == [] <==> (name.Some? && 3 <= Text.Utf16Length(Text.Trim(name.value)) <= 25)
  {
    if ValidationExtensions.TrimLength(name, Some(3), Some(25)) then []
    else ["Name should be between at least 3 and 25 characters long."]
  }

  /** `TypeId` must be a defined workout type; an `int` is never null, so `NotNull` never fails. */
  function TypeErrors(typeId: int): (r: seq<string>)
    ensures r == [] <==> 1 <= typeId <= 5
  {
    if WorkoutTypes.IsDefinedType(typeId) then [] else ["Workout Type must be a valid type."]
  }

  /** A name the validator accepts is still accepted after the setter has trimmed it. */
  lemma SetterKeepsVerdict(value: Option<string>)
    ensures NameErrors(Trimmed(value)) == NameErrors(value)
  {
    if value.Some? {
      ValidationExtensions.TrimLengthOfTrimmed(value.value, Some(3), Some(25));
    }
  }

  /** Two emoji beyond U+FFFF are four code units, so they make a name the rule accepts. */
  lemma TwoAstralCharactersName()
    ensures NameErrors(Some("\U{1F525}\U{1F525}")) == []
  {
    Text.Utf16LengthBeyondBasicPlane("\U{1F525}\U{1F525}");
    Text.TrimEndKeepsHead("\U{1F525}\U{1F525}");
  }
}
