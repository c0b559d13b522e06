/**
 * The request model for updating a workout: name and description trimmed as
 * they are set, and the type id.
 */
module UpdateWorkoutRequest {
  import opened Wrappers
  import Text
  import WorkoutTypes
  import ValidationExtensions
  import CreateWorkoutRequest

  class Model {
    var name: Option<string>
    var description: Option<string>
    var typeId: int

    /**
     * Both texts are as their setters store them, so reading either one and
     * setting it back leaves the model as it was.
     */
    predicate Normalized()
      reads this
    {
      name == CreateWorkoutRequest.Trimmed(name) && description == CreateWorkoutRequest.Trimmed(description)
    }

    constructor()
      ensures name.None? && description.None? && typeId == 0 && Normalized()
    {
      name := None;
      description := None;
      typeId := 0;
    }

    /** The `Name` setter. */
    method SetName(value: Option<string>)
      modifies this
      ensures name == CreateWorkoutRequest.Trimmed(value)
      ensures description == old(description) && typeId == old(typeId)
      ensures old(Normalized()) ==> Normalized()
    {
      CreateWorkoutRequest.TrimmedRoundTrip(value);
      name := CreateWorkoutRequest.Trimmed(value);
    }

    /** The `Description` setter. */
    method SetDescription(value: Option<string>)
      modifies this
      ensures description == CreateWorkoutRequest.Trimmed(value)
      ensures name == old(name) && typeId == old(typeId)
      ensures old(Normalized()) ==> Normalized()
    {
      CreateWorkoutRequest.TrimmedRoundTrip(value);
      description := CreateWorkoutRequest.Trimmed(value);
    }

    /** The validator's messages, in rule order. */
    function Errors(): (r: seq<string>)
      reads this
      ensures r == [] <==> (CreateWorkoutRequest.NameErrors(name) == []
                            && DescriptionErrors(description) == []
                            && WorkoutTypes.IsDefinedType(typeId))
    {
      CreateWorkoutRequest.NameErrors(name) + DescriptionErrors(description) + CreateWorkoutRequest.TypeErrors(typeId)
    }
  }

  /** `Description` must trim to at least 10 UTF-16 code units; there is no upper bound. */
  function DescriptionErrors(description: Option<string>): (r: seq<string>)
    ensures r == [] <==> (description.Some? && Text.Utf16Length(Text.Trim(description.value)) >= 10)
  {
    if ValidationExtensions.TrimLength(description, Some(10), None) then []
    else ["Description should be at least 10 characters long."]
  }

  /** However long, a description passes once it has ten code units besides its surrounding white space. */
  lemma LongDescriptionPasses(pre: string, s: string, post: string)
    requires Text.AllWhiteSpace(pre) && Text.AllWhiteSpace(post) && Text.Utf16Length(Text.Trim(s)) >= 10
    ensures DescriptionErrors(Some(pre + s + post)) == []
  {
    ValidationExtensions.TrimLengthIgnoresPadding(pre, s, post, Some(10), None);
  }

  /** Five emoji beyond U+FFFF are ten code units, so they make a description the rule accepts. */
  lemma FiveAstralCharactersDescribe()
    ensures DescriptionErrors(Some("\U{1F525}\U{1F525}\U{1F525}\U{1F525}\U{1F525}")) == []
  {
    Text.Utf16LengthBeyondBasicPlane("\U{1F525}\U{1F525}\U{1F525}\U{1F525}\U{1F525}");
    Text.TrimEndKeepsHead("\U{1F525}\U{1F525}\U{1F525}\U{1F525}\U{1F525}");
  }
}
