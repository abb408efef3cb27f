/**
 * The description step of the report wizard (app/report/description.tsx):
 * a local text, initialised from the draft, and an agreement checkbox.
 * "Next" runs the personal-data validator, then checks the agreement, and
 * only then writes the text into the draft.
 */
module DescriptionStep {
  import opened Validation
  import ReportStore

  const AgreementMessage: string := "Bitte bestätige, dass du keine identifizierbaren Personen nennst."

  /** What pressing "Next" leads to: an alert with its message, or the media step. */
  datatype StepOutcome = Alerted(message: string) | Advanced

  class Screen {
    const store: ReportStore.Store
    var agreed: bool
    var localDesc: string

    /** The checkbox starts unticked and the text starts as the draft's description. */
    constructor (s: ReportStore.Store)
      ensures store == s && !agreed && localDesc == s.description
    {
      store := s;
      agreed := false;
      localDesc := s.description;
    }

    /** The text field's `onChangeText`; the draft is not touched. */
    method SetLocalDesc(text: string)
      modifies this
      ensures localDesc == text && agreed == old(agreed)
    {
      localDesc := text;
    }

    /** Each press of the checkbox row flips the agreement. */
    method ToggleAgreed()
      modifies this
      ensures agreed == !old(agreed) && localDesc == old(localDesc)
    {
      agreed := !agreed;
    }

    /**
     * onNext. A text the validator refuses is reported with the
     * validator's message; a valid text without agreement is reported
     * with the agreement message; in both cases the draft is unchanged.
     * Otherwise the local text, untrimmed, becomes the draft's description.
     */
    method OnNext() returns (outcome: StepOutcome)
      modifies store
      ensures ValidateDescription(localDesc).Invalid? ==>
        outcome == Alerted(ValidateDescription(localDesc).message) && store.Draft() == old(store.Draft())
      ensures ValidateDescription(localDesc) == Valid && !agreed ==>
        outcome == Alerted(AgreementMessage) && store.Draft() == old(store.Draft())
      ensures outcome == Advanced <==> ValidateDescription(localDesc) == Valid && agreed
      ensures outcome == Advanced ==> store.Draft() == old(store.Draft()).(description := localDesc)
    {
      var result := ValidateDescription(localDesc);
      if result.Invalid? {
        return Alerted(result.message);
      }
      if !agreed {
        return Alerted(AgreementMessage);
      }
      store.SetDescription(localDesc);
      return Advanced;
    }
  }
}
