/**
 * rowtestStudentForm: a six-field Student form that creates a Test_Student__c
 * record on the platform and, when that succeeds, publishes the new record on
 * the Student message channel and clears the form.
 */
module RowtestStudentForm {
  import opened Records

  /** The fields passed to `createRecord`: the six values under the Test_Student__c field names. */
  function CreateFields(name: string, dob: string, sex: string, languages: string, country: string, hobbies: string)
    : (f: Record)
    ensures f.Keys == StudentFormKeys
    ensures f[NameField] == Str(name) && f[DobField] == Str(dob) && f[SexField] == Str(sex)
    ensures f[LanguagesField] == Str(languages) && f[CountryField] == Str(country) && f[HobbiesField] == Str(hobbies)
  {
    map[NameField := Str(name), DobField := Str(dob), SexField := Str(sex),
        LanguagesField := Str(languages), CountryField := Str(country), HobbiesField := Str(hobbies)]
  }

  /** The payload published after a successful create: the new record's id and the six values. */
  function StudentPayload(id: string, name: string, dob: string, sex: string, languages: string, country: string, hobbies: string)
    : (p: Record)
    ensures p.Keys == StudentKeys
    ensures p[IdField] == Str(id)
  {
    map[IdField := Str(id), NameField := Str(name), DobField := Str(dob), SexField := Str(sex),
        LanguagesField := Str(languages), CountryField := Str(country), HobbiesField := Str(hobbies)]
  }

  /** The published payload is exactly the created fields plus the id the platform returned. */
  lemma PayloadIsCreatedRecord(id: string, name: string, dob: string, sex: string, languages: string, country: string, hobbies: string)
    ensures StudentPayload(id, name, dob, sex, languages, country, hobbies)
         == CreateFields(name, dob, sex, languages, country, hobbies)[IdField := Str(id)]
  {
  }

  /**
   * Round trip with the Student tables: the seven-field record a table builds
   * from this payload is the payload itself.
   */
  lemma TableRecordOfPayload(id: string, name: string, dob: string, sex: string, languages: string, country: string, hobbies: string)
    ensures var p := StudentPayload(id, name, dob, sex, languages, country, hobbies);
            StudentRecord(p) == p
  {
    StudentRecordOfRow(StudentPayload(id, name, dob, sex, languages, country, hobbies));
  }

  class RowtestStudentForm {
    var studentName: string
    var studentDOB: string
    var studentSex: string
    var studentLanguages: string
    var studentCountry: string
    var studentHobbies: string

    constructor ()
      ensures studentName == "" && studentDOB == "" && studentSex == ""
      ensures studentLanguages == "" && studentCountry == "" && studentHobbies == ""
    {
      studentName, studentDOB, studentSex := "", "", "";
      studentLanguages, studentCountry, studentHobbies := "", "", "";
    }

    method HandleNameChange(value: string)
      modifies this
      ensures studentName == value
      ensures studentDOB == old(studentDOB) && studentSex == old(studentSex) && studentLanguages == old(studentLanguages)
      ensures studentCountry == old(studentCountry) && studentHobbies == old(studentHobbies)
    {
      studentName := value;
    }

    method HandleDOBChange(value: string)
      modifies this
      ensures studentDOB == value
      ensures studentName == old(studentName) && studentSex == old(studentSex) && studentLanguages == old(studentLanguages)
      ensures studentCountry == old(studentCountry) && studentHobbies == old(studentHobbies)
    {
      studentDOB := value;
    }

    method HandleSexChange(value: string)
      modifies this
      ensures studentSex == value
      ensures studentName == old(studentName) && studentDOB == old(studentDOB) && studentLanguages == old(studentLanguages)
      ensures studentCountry == old(studentCountry) && studentHobbies == old(studentHobbies)
    {
      studentSex := value;
    }

    method HandleLanguagesChange(value: string)
      modifies this
      ensures studentLanguages == value
      ensures studentName == old(studentName) && studentDOB == old(studentDOB) && studentSex == old(studentSex)
      ensures studentCountry == old(studentCountry) && studentHobbies == old(studentHobbies)
    {
      studentLanguages := value;
    }

    method HandleCountryChange(value: string)
      modifies this
      ensures studentCountry == value
      ensures studentName == old(studentName) && studentDOB == old(studentDOB) && studentSex == old(studentSex)
      ensures studentLanguages == old(studentLanguages) && studentHobbies == old(studentHobbies)
    {
      studentCountry := value;
    }

    method HandleHobbiesChange(value: string)
      modifies this
      ensures studentHobbies == value
      ensures studentName == old(studentName) && studentDOB == old(studentDOB) && studentSex == old(studentSex)
      ensures studentLanguages == old(studentLanguages) && studentCountry == old(studentCountry)
    {
      studentHobbies := value;
    }

    /**
     * Creates the record (`createFields` is what is sent; `outcome` how the
     * platform answered). On success the payload with the new id is published
     * and the form is cleared; on failure nothing is published and the form
     * keeps its values.
     */
    method HandleCreateStudent(outcome: CreateOutcome) returns (createFields: Record, published: Option<Record>)
      modifies this
      ensures createFields == CreateFields(old(studentName), old(studentDOB), old(studentSex),
                                           old(studentLanguages), old(studentCountry), old(studentHobbies))
      ensures outcome.Created? ==>
        published == Some(StudentPayload(outcome.id, old(studentName), old(studentDOB), old(studentSex),
                                         old(studentLanguages), old(studentCountry), old(studentHobbies))) &&
        studentName == "" && studentDOB == "" && studentSex == "" &&
        studentLanguages == "" && studentCountry == "" && studentHobbies == ""
      ensures outcome.CreateFailed? ==>
        published.None? &&
        studentName == old(studentName) && studentDOB == old(studentDOB) && studentSex == old(studentSex) &&
        studentLanguages == old(studentLanguages) && studentCountry == old(studentCountry) &&
        studentHobbies == old(studentHobbies)
    {
      createFields := CreateFields(studentName, studentDOB, studentSex, studentLanguages, studentCountry, studentHobbies);
      published := None;
      if outcome.Created? {
        published := Some(StudentPayload(outcome.id, studentName, studentDOB, studentSex,
                                         studentLanguages, studentCountry, studentHobbies));
        studentName := "";
        studentDOB := "";
        studentSex := "";
        studentLanguages := "";
        studentCountry := "";
        studentHobbies := "";
      }
    }
  }
}
