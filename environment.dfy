/**
 * The process environment as the scripts see it: a map from variable name to
 * value. JavaScript truthiness makes "set" mean present AND non-empty.
 */
module Environment {
  import opened Wrappers

  type Env = map<string, string>

  /** `!!process.env[name]`. */
  predicate IsSet(env: Env, name: string) {
    name in env && env[name] != ""
  }

  /** `process.env[name]`; `None` is `undefined`. */
  function Lookup(env: Env, name: string): Option<string> {
    if name in env then Some(env[name]) else None
  }

  /** `process.env[name] || fallback`: the fallback replaces an unset or empty value. */
  function OrElse(env: Env, name: string, fallback: Option<string>): Option<string> {
    if IsSet(env, name) then Some(env[name]) else fallback
  }

  /** `process.env[name] || dflt` for a string default. */
  function OrDefault(env: Env, name: string, dflt: string): string {
    if IsSet(env, name) then env[name] else dflt
  }

  /** A possibly undefined value inside a template literal: `undefined` prints as its name. */
  function Interpolate(v: Option<string>): string {
    match v
    case Some(s) => s
    case None => "undefined"
  }
}
