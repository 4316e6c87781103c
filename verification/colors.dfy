/**
 The colour table: built-in colours per notification kind, with the
 host's overrides layered on top, and the lookup that falls back to the
 colour of the `invalid` kind.
 */
module Colors {

  /** Built-in colour for each kind the dev server announces. */
  const DefaultColors: map<string, string> := map[
    "ok" := "#39d183",        // green: connected and idle
    "invalid" := "#a081ea",   // purple: compiling
    "warnings" := "#dd731d",  // orange
    "errors" := "#e4567b",    // red
    "close" := "#9bacbf",     // grey: socket disconnected
    "progress" := "#39d1cf"   // aqua
  ]

  /** A table the lookup can always fall back on. */
  predicate HasFallback(t: map<string, string>)
  {
    "invalid" in t
  }

  /** The defaults with every host-supplied entry taking precedence
      (`Object.assign(defaults, overrides)`). */
  function Table(overrides: map<string, string>): (t: map<string, string>)
    ensures t.Keys == DefaultColors.Keys + overrides.Keys
    ensures forall k :: k in overrides ==> t[k] == overrides[k]
    ensures forall k :: k in DefaultColors && k !in overrides ==> t[k] == DefaultColors[k]
    ensures HasFallback(t)
  {
    DefaultColors + overrides
  }

  /** The colour for `kind`: its own entry when present and non-empty
      (JavaScript's `||` also skips the empty string), otherwise the
      `invalid` entry. */
  function Resolve(t: map<string, string>, kind: string): (color: string)
    requires HasFallback(t)
    ensures kind in t && t[kind] != "" ==> color == t[kind]
    ensures !(kind in t && t[kind] != "") ==> color == t["invalid"]
    ensures color in t.Values
  {
    if kind in t && t[kind] != "" then t[kind] else t["invalid"]
  }

  /** An unknown kind is coloured exactly as `invalid` is. */
  lemma ResolveUnknownAsInvalid(t: map<string, string>, kind: string)
    requires HasFallback(t)
    requires kind !in t
    ensures Resolve(t, kind) == Resolve(t, "invalid")
  {
  }

  /** A non-empty host colour for a kind beats the built-in one. */
  lemma OverrideWins(overrides: map<string, string>, kind: string)
    requires kind in overrides && overrides[kind] != ""
    ensures Resolve(Table(overrides), kind) == overrides[kind]
  {
  }

  /** Without a host entry for it, a built-in kind keeps its built-in colour. */
  lemma DefaultKept(overrides: map<string, string>, kind: string)
    requires kind in DefaultColors && kind !in overrides
    ensures Resolve(Table(overrides), kind) == DefaultColors[kind]
  {
  }
}
