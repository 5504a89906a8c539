/**
 * The runtime objects the codec core handles, and the virtual machine that
 * invokes them. Everything the core does not define itself (calling a Python
 * object, asking whether it is callable) is a field of `Vm`, passed to every
 * operation that needs it, as the source passes `vm: &VirtualMachine`.
 */
module Values {
  import opened Wrappers

  newtype byte = x: int | 0 <= x < 256

  /** The objects that flow through the registry, reduced to the shapes it inspects. */
  datatype Value =
    | NoneValue
      /** A tuple; `isTextEncoding` is its optional `_is_text_encoding` attribute. */
    | Tuple(items: seq<Value>, isTextEncoding: Option<bool>)
    | Bytes(data: seq<byte>)
    | Str(text: string)
      /** Any other object: functions, user classes, numbers. */
    | Object(id: nat, typeName: string)

  /** The name of the object's class, as an error message prints it. */
  function TypeName(v: Value): string
  {
    match v
    case NoneValue => "NoneType"
    case Tuple(_, _) => "tuple"
    case Bytes(_) => "bytes"
    case Str(_) => "str"
    case Object(_, name) => name
  }

  /** The exception objects an error handler receives or that user code raises. */
  datatype ErrorObject =
    | UnicodeDecodeError(start: nat, end: nat, bytes: seq<byte>)
    | UnicodeEncodeError(start: nat, end: nat, text: string)
    | UnicodeTranslateError(start: nat, end: nat, text: string)
      /** An exception of some other class. */
    | OtherException(className: string)
      /** A value that is not an exception instance at all. */
    | NotAnException(className: string)

  function ClassName(err: ErrorObject): string
  {
    match err
    case UnicodeDecodeError(_, _, _) => "UnicodeDecodeError"
    case UnicodeEncodeError(_, _, _) => "UnicodeEncodeError"
    case UnicodeTranslateError(_, _, _) => "UnicodeTranslateError"
    case OtherException(name) => name
    case NotAnException(name) => name
  }

  /** The failures the core raises or propagates. */
  datatype Exception =
    | TypeError(msg: string)
    | LookupError(msg: string)
      /** An exception object re-raised as it is (by user code or the strict handler). */
    | Raised(obj: ErrorObject)

  /** What invoking a Python callable produced: a value, or a raised exception. */
  datatype CallResult = Returned(value: Value) | Threw(exception: Exception)

  /**
   * The interpreter, as far as the codec core sees it: `invoke(f, args)` is
   * `vm.invoke(f, args)` and `isCallable(f)` is `vm.is_callable(f)`.
   */
  datatype Vm = Vm(invoke: (Value, seq<Value>) -> CallResult, isCallable: Value -> bool)
}
