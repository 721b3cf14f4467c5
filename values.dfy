/** The Python values that flow through the store and the template contexts. */
module Values {
  import opened OrderedDicts

  datatype Option<T> = None | Some(value: T)

  /** The four callables bound to the shared store that templates see. */
  datatype StoreAccessor = SetVarFn | GetVarFn | ClearVarsFn | ListVarsFn

  /** Which definition an accessor value is: a closure of `enhanced_macro_context`, whose
      parameters are `key`, `value` and `default`, or one of the adapter's lambdas, whose
      parameters are `k`, `v` and `d`. Called positionally the two behave alike; they differ
      in the keyword arguments they accept. */
  datatype Binder = ContextClosure | AdapterLambda

  datatype Value =
    | NoneValue
    | Str(s: string)
    | Int(i: int)
    | Bool(b: bool)
    | DictValue(dict: Dict<Value>)
    | Callable(accessor: StoreAccessor, binder: Binder)
      /** the store object itself, exposed to templates as `global_context` */
    | StoreObject
      /** any other object (a macro, a resolver, a config) that the model does not look into */
    | HostObject(id: nat)

  /** The outcome of one host macro execution: a value, or any exception. */
  datatype Outcome = Success(value: Value) | Failure
}
