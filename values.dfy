/** The scalar values that flow between the host payload, the form controls
    and the change notifications, with the few JavaScript coercions the
    sidebar script relies on. */
module Values {

  datatype Option<+T> = None | Some(value: T)

  /** A field value as the script sees it. Strict inequality (`!==`) on these
      is type-sensitive: `Bool(false)` and `Str("false")` are different. */
  datatype Value = Str(s: string) | Bool(b: bool)

  /** JavaScript truthiness, restricted to strings and booleans. */
  predicate Truthy(v: Value) {
    match v
    case Str(s) => s != ""
    case Bool(b) => b
  }

  /** A payload field that is present and truthy, so that `data.F || d` yields it. */
  predicate Present(o: Option<Value>) {
    o.Some? && Truthy(o.value)
  }

  /** `data.F || d`: the field when it is present and truthy, otherwise the default. */
  function Or(o: Option<Value>, d: Value): Value {
    if Present(o) then o.value else d
  }

  /** `String(v)`, the coercion applied when a value is assigned to an input's
      `.value` or interpolated into a template literal. */
  function ToText(v: Value): (r: string)
    ensures Truthy(v) ==> r != ""
  {
    match v
    case Str(s) => s
    case Bool(b) => if b then "true" else "false"
  }

  /** Property access on a parsed JSON object: absent (or null) fields are `None`. */
  function Get<K>(fields: map<K, Value>, name: K): Option<Value> {
    if name in fields then Some(fields[name]) else None
  }

  /** A form control: a text input (its `.value`) or a checkbox (its `.checked`). */
  datatype Control = TextInput(text: string) | Checkbox(checked: bool)

  /** `element.type === 'checkbox' ? element.checked : element.value` */
  function CurrentValue(c: Control): Value {
    match c
    case TextInput(t) => Str(t)
    case Checkbox(b) => Bool(b)
  }
}
