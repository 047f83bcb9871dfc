/**
  The language context (`contexts/LanguageContext.tsx`): the selected
  interface language, the translation lookup `t` with its fall-back to the
  key itself, switching language, and restoring the language saved by an
  earlier visit. The tables hold a sample of the keys.
 */
module Language {
  import opened Optional

  datatype Lang = En | Hi | Mr | Ta | Te | Kn

  /** The code under which a language is stored and keyed. */
  function Code(l: Lang): string
  {
    match l
    case En => "en"
    case Hi => "hi"
    case Mr => "mr"
    case Ta => "ta"
    case Te => "te"
    case Kn => "kn"
  }

  /** The language with this code, if any has a translation table. */
  function FromCode(s: string): (r: Option<Lang>)
    ensures r.Some? ==> Code(r.value) == s
    ensures r.None? ==> forall l: Lang :: Code(l) != s
  {
    if s == "en" then Some(En)
    else if s == "hi" then Some(Hi)
    else if s == "mr" then Some(Mr)
    else if s == "ta" then Some(Ta)
    else if s == "te" then Some(Te)
    else if s == "kn" then Some(Kn)
    else None
  }

  /** Codes identify languages: reading a code back gives the same language. */
  lemma CodeRoundTrip(l: Lang)
    ensures FromCode(Code(l)) == Some(l)
  {
  }

  /** A sample of each language's table (key to translated text); every
      table holds the same sampled keys, as the program's tables do. */
  function Table(l: Lang): map<string, string>
  {
    match l
    case En => map["app.title" := "Agriconnect", "header.login" := "Login / Register", "action.save" := "Save"]
    case Hi => map["app.title" := "एग्रीकनेक्ट", "header.login" := "लॉगिन / रजिस्टर", "action.save" := "सेव करें"]
    case Mr => map["app.title" := "अॅग्रिकनेक्ट", "header.login" := "लॉगिन / नोंदणी", "action.save" := "सेव्ह करा"]
    case Ta => map["app.title" := "அக்ரிகனெக்ட்", "header.login" := "உள்நுழைவு / பதிவு", "action.save" := "சேமிக்கவும்"]
    case Te => map["app.title" := "అగ్రికనెక్ట్", "header.login" := "లాగిన్ / రిజిస్టర్", "action.save" := "సేవ్ చేయండి"]
    case Kn => map["app.title" := "ಅಗ್ರಿಕನೆಕ್ಟ್", "header.login" := "ಲಾಗಿನ್ / ನೋಂದಣಿ", "action.save" := "ಉಳಿಸಿ"]
  }

  /** `table[key] || key`: the translation, or the key itself when the
      table has none or an empty one. */
  function Lookup(table: map<string, string>, key: string): (r: string)
    ensures key in table && table[key] != "" ==> r == table[key]
    ensures !(key in table && table[key] != "") ==> r == key
  {
    if key in table && table[key] != "" then table[key] else key
  }

  /** The lookup never invents text: it answers with a table entry or the
      key, and it answers with the empty string only for the empty key. */
  lemma LookupSources(table: map<string, string>, key: string)
    ensures Lookup(table, key) == key || Lookup(table, key) in table.Values
    ensures Lookup(table, key) == "" ==> key == ""
  {
    if key in table && table[key] != "" {
      assert table[key] in table.Values;
    }
  }

  datatype State = State(current: Lang)

  /** The provider's first state: English. */
  const Initial := State(En)

  /** `t(key)` in the current language. */
  function T(s: State, key: string): string
  {
    Lookup(Table(s.current), key)
  }

  /** A key the current table lacks is shown as itself. */
  lemma MissingKeyShownAsIs(s: State, key: string)
    requires key !in Table(s.current)
    ensures T(s, key) == key
  {
  }

  /** The save button reads "Save" in English and its Marathi text in
      Marathi; a key that no table holds is shown as itself in every
      language. */
  lemma SampleLookups(l: Lang)
    ensures T(State(En), "action.save") == "Save"
    ensures T(State(Mr), "action.save") == "सेव्ह करा"
    ensures T(State(l), "action.print") == "action.print"
  {
  }

  /** Every language translates each sampled key: the fall-back to the key
      never shows for a key that the English table holds. */
  lemma SampledKeysShared(l: Lang, key: string)
    requires key in Table(En)
    ensures key in Table(l) && T(State(l), key) == Table(l)[key] && T(State(l), key) != key
  {
  }

  /** `setLanguage(l)`: the new state and the code written to storage. */
  function SetLanguage(s: State, l: Lang): (r: (State, string))
    ensures r.0.current == l
    ensures FromCode(r.1) == Some(l)
  {
    CodeRoundTrip(l);
    (State(l), Code(l))
  }

  /** The mount-time restore: a saved code naming a language with a table
      selects it; anything else (nothing saved, an unknown code) keeps English. */
  function Restore(saved: Option<string>): (r: State)
    ensures saved.Some? && FromCode(saved.value).Some? ==> r.current == FromCode(saved.value).value
    ensures saved.None? || FromCode(saved.value).None? ==> r == Initial
  {
    if saved.Some? && FromCode(saved.value).Some? then State(FromCode(saved.value).value)
    else Initial
  }

  /** What one visit saves the next restores. */
  lemma SaveThenRestore(s: State, l: Lang)
    ensures Restore(Some(SetLanguage(s, l).1)) == SetLanguage(s, l).0
  {
  }
}
