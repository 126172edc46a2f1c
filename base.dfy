/** Shared vocabulary: optional values, the JavaScript values the core inspects,
    and the exceptions a patch pass can raise. */
module Base {

  datatype Option<T> = None | Some(value: T)

  datatype Result<T> = Ok(value: T) | Err(error: Error)

  /** A handle naming one host (DOM) node. */
  type Handle = nat

  /** The JavaScript values the core distinguishes for keys, tags and prop values:
      `undefined`, `null` or a string. Numbers, booleans and objects are not modelled. */
  datatype JsValue = Undefined | Null | Str(s: string)

  /** `v == null` in JavaScript: true of both `undefined` and `null`. */
  predicate Nullish(v: JsValue)
  {
    v == Undefined || v == Null
  }

  /** `String(v)`: how a value becomes an attribute value or an object property name. */
  function ToJsString(v: JsValue): string
  {
    match v
    case Undefined => "undefined"
    case Null => "null"
    case Str(s) => s
  }

  /** JavaScript truthiness of a string that may be `null`. */
  predicate Truthy(s: Option<string>)
  {
    s.Some? && s.value != ""
  }

  /** The exceptions that can end a pass. All but the last two are JavaScript
      `TypeError`s; the cause says which property read or call failed. */
  datatype Error =
    | UndefinedVnode         // a property of `undefined` read where a vnode was expected
    | DuplicateKey           // the duplicate-key warning was printed, then `sameVnode(undefined, ...)` failed
    | NullElement            // a host operation reached through a vnode whose `el` is null
    | NullProps              // `updateProps` indexed a null props object
    | StringChildren         // reconciliation reached a string where it expected a child vnode
    | NotFoundError          // DOM: the reference or old child is not a child of the parent
    | HierarchyRequestError  // DOM: the inserted node is an inclusive ancestor of the parent
}
