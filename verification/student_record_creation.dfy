/**
 * studentRecordCreation: a six-field Student form that, when every field is
 * filled, publishes the values on the student-created message channel and
 * clears the form. It makes no platform call.
 */
module StudentRecordCreation {
  import opened Records

  // Property names of the form's inputs (the `name` attribute of each input).
  const NameInput := "name"
  const DobInput := "dob"
  const SexInput := "sex"
  const LanguagesInput := "languages"
  const CountryInput := "country"
  const HobbiesInput := "hobbies"

  /** The guard of `handleAddStudent`: every value is truthy, that is, non-empty. */
  predicate AllFilled(name: string, dob: string, sex: string, languages: string, country: string, hobbies: string)
    : (filled: bool)
    ensures filled <==> "" !in [name, dob, sex, languages, country, hobbies]
  {
    name != "" && dob != "" && sex != "" && languages != "" && country != "" && hobbies != ""
  }

  /** The message published: the six values under the Student field names, and no Id. */
  function CreatedMessage(name: string, dob: string, sex: string, languages: string, country: string, hobbies: string)
    : (m: Record)
    ensures m.Keys == StudentFormKeys
    ensures IdField !in m
    ensures m[NameField] == Str(name) && m[DobField] == Str(dob) && m[SexField] == Str(sex)
    ensures m[LanguagesField] == Str(languages) && m[CountryField] == Str(country) && m[HobbiesField] == Str(hobbies)
  {
    map[NameField := Str(name), DobField := Str(dob), SexField := Str(sex),
        LanguagesField := Str(languages), CountryField := Str(country), HobbiesField := Str(hobbies)]
  }

  class StudentRecordCreation {
    var name: string
    var dob: string
    var sex: string
    var languages: string
    var country: string
    var hobbies: string

    constructor ()
      ensures name == "" && dob == "" && sex == "" && languages == "" && country == "" && hobbies == ""
    {
      name, dob, sex, languages, country, hobbies := "", "", "", "", "", "";
    }

    /**
     * `this[event.target.name] = event.target.value`: the property named by the
     * input changes and no other form value does. An input with any other
     * name leaves the six values alone.
     */
    method HandleChange(target: string, value: string)
      modifies this
      ensures name == (if target == NameInput then value else old(name))
      ensures dob == (if target == DobInput then value else old(dob))
      ensures sex == (if target == SexInput then value else old(sex))
      ensures languages == (if target == LanguagesInput then value else old(languages))
      ensures country == (if target == CountryInput then value else old(country))
      ensures hobbies == (if target == HobbiesInput then value else old(hobbies))
    {
      if target == NameInput {
        name := value;
      } else if target == DobInput {
        dob := value;
      } else if target == SexInput {
        sex := value;
      } else if target == LanguagesInput {
        languages := value;
      } else if target == CountryInput {
        country := value;
      } else if target == HobbiesInput {
        hobbies := value;
      }
    }

    /**
     * Publishes the form (`published`) if and only if every value is filled
     * in, and then clears all six; otherwise publishes nothing and changes nothing.
     */
    method HandleAddStudent() returns (published: Option<Record>)
      modifies this
      ensures published.Some? <==> AllFilled(old(name), old(dob), old(sex), old(languages), old(country), old(hobbies))
      ensures published.Some? ==>
        published.value == CreatedMessage(old(name), old(dob), old(sex), old(languages), old(country), old(hobbies)) &&
        name == "" && dob == "" && sex == "" && languages == "" && country == "" && hobbies == ""
      ensures published.None? ==>
        name == old(name) && dob == old(dob) && sex == old(sex) &&
        languages == old(languages) && country == old(country) && hobbies == old(hobbies)
    {
      published := None;
      if AllFilled(name, dob, sex, languages, country, hobbies) {
        published := Some(CreatedMessage(name, dob, sex, languages, country, hobbies));
        name := "";
        dob := "";
        sex := "";
        languages := "";
        country := "";
        hobbies := "";
      }
    }
  }

  /** Two clicks in a row publish at most once: the first click's reset, or its failed guard, stops the second. */
  method AddStudentTwice(form: StudentRecordCreation) returns (first: Option<Record>, second: Option<Record>)
    modifies form
    ensures second.None?
    ensures first.Some? <==> AllFilled(old(form.name), old(form.dob), old(form.sex),
                                       old(form.languages), old(form.country), old(form.hobbies))
  {
    first := form.HandleAddStudent();
    second := form.HandleAddStudent();
  }
}
