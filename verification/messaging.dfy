/**
 * The message channels that connect the forms to the tables. Delivery by the
 * message bus is modelled as a direct call of the subscriber's `handleMessage`
 * with the published payload:
 *   - rowtestStudentForm publishes on the Student channel, read by
 *     studentDataTable, inlineStudentDisplay and rowtestStudentDataTable;
 *   - createAccountForm publishes on the account-created channel, read by
 *     accountDataTable;
 *   - studentRecordCreation publishes on the student-created channel, read by
 *     studentRecordDisplay.
 */
module Messaging {
  import opened Records
  import StudentRecordCreation
  import StudentRecordDisplay
  import RowtestStudentForm
  import RowtestStudentDataTable
  import StudentDataTable
  import InlineStudentDisplay
  import CreateAccountForm
  import AccountDataTable

  /**
   * Every value entered in studentRecordCreation reaches the matching display
   * field of the row studentRecordDisplay appends for it.
   */
  lemma DisplayShowsCreatedValues(name: string, dob: string, sex: string, languages: string,
                                    country: string, hobbies: string, now: int)
    ensures var row := StudentRecordDisplay.DisplayRecord(
              StudentRecordCreation.CreatedMessage(name, dob, sex, languages, country, hobbies), now);
            row[StudentRecordDisplay.DisplayNameField] == Str(name) &&
            row[StudentRecordDisplay.DisplayDobField] == Str(dob) &&
            row[StudentRecordDisplay.DisplaySexField] == Str(sex) &&
            row[StudentRecordDisplay.DisplayLanguagesField] == Str(languages) &&
            row[StudentRecordDisplay.DisplayCountryField] == Str(country) &&
            row[StudentRecordDisplay.DisplayHobbiesField] == Str(hobbies) &&
            row[StudentRecordDisplay.DisplayIdField] == Num(now)
  {
    var m := StudentRecordCreation.CreatedMessage(name, dob, sex, languages, country, hobbies);
    var row := StudentRecordDisplay.DisplayRecord(m, now);
    assert Get(m, NameField) == Str(name) && Get(m, DobField) == Str(dob) && Get(m, SexField) == Str(sex);
    assert Get(m, LanguagesField) == Str(languages) && Get(m, CountryField) == Str(country);
    assert Get(m, HobbiesField) == Str(hobbies);
  }

  /** A created Student shows up, exactly as published, at the top of rowtestStudentDataTable. */
  method CreateStudentIntoRowtestTable(form: RowtestStudentForm.RowtestStudentForm,
                                       table: RowtestStudentDataTable.RowtestStudentDatatable,
                                       outcome: CreateOutcome)
    modifies form, table
    ensures outcome.Created? ==>
      table.records == [RowtestStudentForm.StudentPayload(outcome.id, old(form.studentName), old(form.studentDOB),
                          old(form.studentSex), old(form.studentLanguages), old(form.studentCountry),
                          old(form.studentHobbies))] + old(table.records)
    ensures outcome.CreateFailed? ==> table.records == old(table.records)
  {
    var _, published := form.HandleCreateStudent(outcome);
    if published.Some? {
      RowtestStudentForm.TableRecordOfPayload(outcome.id, old(form.studentName), old(form.studentDOB),
        old(form.studentSex), old(form.studentLanguages), old(form.studentCountry), old(form.studentHobbies));
      table.HandleMessage(published.value);
    }
  }

  /** A created Student shows up, exactly as published, at the top of studentDataTable. */
  method CreateStudentIntoDataTable(form: RowtestStudentForm.RowtestStudentForm,
                                    table: StudentDataTable.StudentDatatable,
                                    outcome: CreateOutcome)
    modifies form, table
    ensures outcome.Created? ==>
      table.records == [RowtestStudentForm.StudentPayload(outcome.id, old(form.studentName), old(form.studentDOB),
                          old(form.studentSex), old(form.studentLanguages), old(form.studentCountry),
                          old(form.studentHobbies))] + old(table.records)
    ensures outcome.CreateFailed? ==> table.records == old(table.records)
  {
    var _, published := form.HandleCreateStudent(outcome);
    if published.Some? {
      RowtestStudentForm.TableRecordOfPayload(outcome.id, old(form.studentName), old(form.studentDOB),
        old(form.studentSex), old(form.studentLanguages), old(form.studentCountry), old(form.studentHobbies));
      table.HandleMessage(published.value);
    }
  }

  /** A created Student shows up, exactly as published, at the top of inlineStudentDisplay. */
  method CreateStudentIntoInlineDisplay(form: RowtestStudentForm.RowtestStudentForm,
                                        table: InlineStudentDisplay.InlineStudentDisplay,
                                        outcome: CreateOutcome)
    requires table.Valid()
    modifies form, table
    ensures table.Valid()
    ensures outcome.Created? ==>
      table.records == [RowtestStudentForm.StudentPayload(outcome.id, old(form.studentName), old(form.studentDOB),
                          old(form.studentSex), old(form.studentLanguages), old(form.studentCountry),
                          old(form.studentHobbies))] + old(table.records)
    ensures outcome.CreateFailed? ==> table.records == old(table.records)
  {
    var _, published := form.HandleCreateStudent(outcome);
    if published.Some? {
      RowtestStudentForm.TableRecordOfPayload(outcome.id, old(form.studentName), old(form.studentDOB),
        old(form.studentSex), old(form.studentLanguages), old(form.studentCountry), old(form.studentHobbies));
      table.HandleMessage(published.value);
    }
  }

  /** A created Account shows up, exactly as published, at the top of accountDataTable. */
  method CreateAccountIntoTable(form: CreateAccountForm.CreateAccountForm,
                                table: AccountDataTable.AccountDataTable,
                                outcome: CreateOutcome)
    requires table.Valid()
    modifies form, table
    ensures table.Valid()
    ensures outcome.Created? ==>
      table.records == [CreateAccountForm.AccountPayload(outcome.id, old(form.accountName),
                          old(form.accountIndustry), old(form.accountPhone))] + old(table.records)
    ensures outcome.CreateFailed? ==> table.records == old(table.records)
  {
    var _, published := form.HandleCreateAccount(outcome);
    if published.Some? {
      CreateAccountForm.TableRecordOfPayload(outcome.id, old(form.accountName), old(form.accountIndustry),
        old(form.accountPhone));
      table.HandleMessage(published.value);
    }
  }

  /** A filled-in studentRecordCreation form ends up as the last row of studentRecordDisplay. */
  method AddStudentIntoDisplay(form: StudentRecordCreation.StudentRecordCreation,
                               display: StudentRecordDisplay.StudentRecordDisplay,
                               now: int)
    requires display.Valid()
    modifies form, display
    ensures display.Valid()
    ensures StudentRecordCreation.AllFilled(old(form.name), old(form.dob), old(form.sex),
                                            old(form.languages), old(form.country), old(form.hobbies)) ==>
      display.records == old(display.records) + [StudentRecordDisplay.DisplayRecord(
        StudentRecordCreation.CreatedMessage(old(form.name), old(form.dob), old(form.sex),
                                             old(form.languages), old(form.country), old(form.hobbies)), now)]
    ensures !StudentRecordCreation.AllFilled(old(form.name), old(form.dob), old(form.sex),
                                             old(form.languages), old(form.country), old(form.hobbies)) ==>
      display.records == old(display.records)
  {
    var published := form.HandleAddStudent();
    if published.Some? {
      display.HandleMessage(published.value, now);
    }
  }
}
