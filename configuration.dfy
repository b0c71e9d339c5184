/**
 * RailsSoftLock::Configuration: the selected adapter, the class that
 * locks, and the options of `acts_as_locked_by`. The adapter is always one
 * of the supported ones; the setter refuses anything else.
 */
module Config {
  import opened Wrappers

  /** VALID_ADAPTERS, each symbol written as its name. */
  const ValidAdapters: seq<string> := ["redis", "nats", "memcached"]
  const DefaultAdapter: string := "redis"
  /** DEFAULT_LOCKED_BY_CLASS */
  const DefaultLockedByClass: string := "User"
  const DefaultAttribute: string := "lock_attribute"
  const DefaultScopeResult: string := "none"

  /** Array#join */
  function Join(items: seq<string>, separator: string): string {
    if |items| == 0 then ""
    else if |items| == 1 then items[0]
    else items[0] + separator + Join(items[1..], separator)
  }

  /** What `adapter=` raises for an unsupported value. */
  const InvalidAdapter: RubyError := ArgumentError("Adapter must be one of: " + Join(ValidAdapters, ", "))

  /**
   * The `scope:` option: nil, or a callable. The model takes the callable's
   * answer as given (its code belongs to the application).
   */
  datatype Scope = NoScope | Callable(result: Option<string>)

  /** The options hash `{ by:, scope: }`; `by:` is held as `attribute`. */
  datatype ActsAsLockedOptions = ActsAsLockedOptions(attribute: Option<string>, scope: Scope)

  /** DEFAULT_LOCKED_OPTIONS: `{ by: :lock_attribute, scope: -> { "none" } }` */
  const DefaultOptions: ActsAsLockedOptions := ActsAsLockedOptions(Some(DefaultAttribute), Callable(Some(DefaultScopeResult)))

  /** The adapter after a sequence of `adapter=` calls, each of which either assigns or raises and assigns nothing. */
  function AdapterAfter(adapter: string, values: seq<string>): string
    decreases |values|
  {
    if values == [] then adapter
    else AdapterAfter(if values[0] in ValidAdapters then values[0] else adapter, values[1..])
  }

  /** Whatever is assigned, the adapter stays one of the supported ones. */
  lemma {:induction false} AdapterStaysValid(adapter: string, values: seq<string>)
    requires adapter in ValidAdapters
    ensures AdapterAfter(adapter, values) in ValidAdapters
    decreases |values|
  {
    if values != [] {
      AdapterStaysValid(if values[0] in ValidAdapters then values[0] else adapter, values[1..]);
    }
  }

  class Configuration {
    var adapter: string
    var lockedByClass: string
    var actsAsLockedOptions: ActsAsLockedOptions

    ghost predicate Valid()
      reads this
    {
      adapter in ValidAdapters
    }

    /** The state `initialize` leaves. */
    ghost predicate IsDefault()
      reads this
    {
      adapter == DefaultAdapter && lockedByClass == DefaultLockedByClass
      && actsAsLockedOptions == DefaultOptions
    }

    constructor ()
      ensures Valid() && IsDefault()
      ensures ActsAsLockedAttribute() == DefaultAttribute && ActsAsLockedScope() == DefaultScopeResult
    {
      adapter := DefaultAdapter;
      lockedByClass := DefaultLockedByClass;
      actsAsLockedOptions := DefaultOptions;
    }

    /** `acts_as_locked_by(attribute = :lock_attribute, scope: -> { "none" })`: replaces both options. */
    method ActsAsLockedBy(attribute: Option<string> := Some(DefaultAttribute),
                          scope: Scope := Callable(Some(DefaultScopeResult)))
      modifies this
      ensures actsAsLockedOptions == ActsAsLockedOptions(attribute, scope)
      ensures adapter == old(adapter) && lockedByClass == old(lockedByClass)
      ensures ActsAsLockedAttribute() == if attribute.Some? then attribute.value else DefaultAttribute
      ensures ActsAsLockedScope() == if scope.Callable? && scope.result.Some? then scope.result.value else DefaultScopeResult
      ensures attribute == Some(DefaultAttribute) && scope == Callable(Some(DefaultScopeResult)) ==> actsAsLockedOptions == DefaultOptions
    {
      actsAsLockedOptions := ActsAsLockedOptions(attribute, scope);
    }

    /** `acts_as_locked_attribute`: the `by:` option, or :lock_attribute when it is nil. */
    function ActsAsLockedAttribute(): (attribute: string)
      reads this
      ensures actsAsLockedOptions.attribute.Some? ==> attribute == actsAsLockedOptions.attribute.value
      ensures actsAsLockedOptions.attribute.None? ==> attribute == DefaultAttribute
    {
      actsAsLockedOptions.attribute.OrElse(Some(DefaultAttribute)).value
    }

    /** `acts_as_locked_scope`: the scope's answer, or "none" when there is no scope or it answers nil. */
    function ActsAsLockedScope(): (scope: string)
      reads this
      ensures actsAsLockedOptions.scope.Callable? && actsAsLockedOptions.scope.result.Some? ==>
                scope == actsAsLockedOptions.scope.result.value
      ensures actsAsLockedOptions.scope.NoScope? || actsAsLockedOptions.scope.result.None? ==>
                scope == DefaultScopeResult
    {
      match actsAsLockedOptions.scope
      case NoScope => DefaultScopeResult
      case Callable(result) => result.OrElse(Some(DefaultScopeResult)).value
    }

    /** `adapter=`: assigns a supported adapter; raises ArgumentError and keeps the old one otherwise. */
    method SetAdapter(value: string) returns (outcome: Result<string>)
      requires Valid()
      modifies this
      ensures Valid()
      ensures outcome.Ok? <==> value in ValidAdapters
      ensures outcome.Ok? ==> outcome.value == value && adapter == value
      ensures outcome.Raised? ==> outcome.error == InvalidAdapter && adapter == old(adapter)
      ensures adapter == AdapterAfter(old(adapter), [value])
      ensures lockedByClass == old(lockedByClass) && actsAsLockedOptions == old(actsAsLockedOptions)
    {
      if value !in ValidAdapters {
        return Raised(InvalidAdapter);
      }
      adapter := value;
      outcome := Ok(value);
    }
  }
}
