/** The patient record the form edits (`IPatient`), the input masks it goes
    through, and the payload normalisation done before submission. */
module Patient {
  import opened Wrappers

  /** The text fields the form lets the user type into. */
  datatype Field =
    | Name | Cpf | SusCard | Phone
    | Street | Number | Complement | Reference | Neighborhood

  /** `IPatient`: every field may be absent; the screen starts from `{}`. */
  datatype Record = Record(
    name: Option<string>,
    cpf: Option<string>,
    susCard: Option<string>,
    phone: Option<string>,
    street: Option<string>,
    number: Option<string>,
    complement: Option<string>,
    reference: Option<string>,
    neighborhood: Option<string>)

  /** The record of a fresh screen, `{} as IPatient`. */
  const Empty := Record(None, None, None, None, None, None, None, None, None)

  /** `patient[f]`. */
  function Get(p: Record, f: Field): Option<string> {
    match f
    case Name => p.name
    case Cpf => p.cpf
    case SusCard => p.susCard
    case Phone => p.phone
    case Street => p.street
    case Number => p.number
    case Complement => p.complement
    case Reference => p.reference
    case Neighborhood => p.neighborhood
  }

  /** `{ ...p, [f]: v }`: the record with one field replaced. */
  function With(p: Record, f: Field, v: Option<string>): (r: Record)
    ensures Get(r, f) == v
    ensures forall g :: g != f ==> Get(r, g) == Get(p, g)
  {
    match f
    case Name => p.(name := v)
    case Cpf => p.(cpf := v)
    case SusCard => p.(susCard := v)
    case Phone => p.(phone := v)
    case Street => p.(street := v)
    case Number => p.(number := v)
    case Complement => p.(complement := v)
    case Reference => p.(reference := v)
    case Neighborhood => p.(neighborhood := v)
  }

  /** The four input masks of the utilities module. Their definitions are not
      part of this model, so they are carried as values about which nothing is
      assumed. `numberMask` is applied to fields that may be absent. */
  datatype Masks = Masks(
    numberMask: Option<string> -> Option<string>,
    cpfMask: string -> string,
    susCardMask: string -> string,
    phoneMask: string -> string)

  /** What an edit of field `f` stores for the typed `text`: the masked text for
      the CPF, SUS card and phone inputs, the text as typed for the others. */
  function Stored(masks: Masks, f: Field, text: string): (r: string)
    ensures !IsNumeric(f) ==> r == text
    ensures f == Cpf ==> r == masks.cpfMask(text)
    ensures f == SusCard ==> r == masks.susCardMask(text)
    ensures f == Phone ==> r == masks.phoneMask(text)
  {
    match f
    case Cpf => masks.cpfMask(text)
    case SusCard => masks.susCardMask(text)
    case Phone => masks.phoneMask(text)
    case _ => text
  }

  /** The fields that submission normalises. */
  predicate IsNumeric(f: Field) { f == Cpf || f == SusCard || f == Phone }

  /** JavaScript truthiness of an optional string: present and non-empty. */
  predicate Truthy(v: Option<string>) { v.Some? && v.value != "" }

  /** `patientParsed`: the record sent to the server. */
  function Normalize(p: Record, masks: Masks): (r: Record)
    ensures Get(r, Cpf) == masks.numberMask(Get(p, Cpf))
    ensures Get(r, Phone) == masks.numberMask(Get(p, Phone))
    ensures Get(r, SusCard) ==
      if Truthy(Get(p, SusCard)) then masks.numberMask(Get(p, SusCard)) else None
    ensures forall f :: !IsNumeric(f) ==> Get(r, f) == Get(p, f)
  {
    p.(cpf := masks.numberMask(p.cpf),
       susCard := if Truthy(p.susCard) then masks.numberMask(p.susCard) else None,
       phone := masks.numberMask(p.phone))
  }

  /** An empty or absent SUS card number is not sent at all. */
  lemma NormalizeDropsEmptySusCard(p: Record, masks: Masks)
    requires Get(p, SusCard) == None || Get(p, SusCard) == Some("")
    ensures Get(Normalize(p, masks), SusCard) == None
  {
  }

  /** Normalisation only looks at the record: editing a field that it keeps
      as typed changes the payload in that field only. */
  lemma NormalizeAfterTextEdit(p: Record, masks: Masks, f: Field, text: string)
    requires !IsNumeric(f)
    ensures Normalize(With(p, f, Some(text)), masks) == With(Normalize(p, masks), f, Some(text))
  {
  }

  /** Editing the same field twice keeps only the second edit. */
  lemma EditOverwrites(p: Record, f: Field, a: Option<string>, b: Option<string>)
    ensures With(With(p, f, a), f, b) == With(p, f, b)
  {
  }

  /** Edits of two different fields can happen in either order. */
  lemma EditsCommute(p: Record, f: Field, a: Option<string>, g: Field, b: Option<string>)
    requires f != g
    ensures With(With(p, f, a), g, b) == With(With(p, g, b), f, a)
  {
  }
}
