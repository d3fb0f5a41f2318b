/**
 * `getEnvFunction` (tests/support/helpers/env.helpers.ts): the credentials
 * and base URL of the site under test, read from variables whose names carry
 * the environment, `PROD` or `DEV`.
 */
module EnvHelpers {
  import opened Wrappers
  import opened Environment

  /** The fields of the returned object; `None` is `undefined`, a missing variable having no default. */
  datatype EnvVars = EnvVars(userName: Option<string>, password: Option<string>, baseUrl: Option<string>)

  /** `PROD` only when `NODE_ENV` is exactly `PROD`, letter case included; `DEV` otherwise, unset included. */
  function EnvSuffix(env: Env): (suffix: string)
    ensures suffix == "PROD" || suffix == "DEV"
  {
    if "NODE_ENV" in env && env["NODE_ENV"] == "PROD" then "PROD" else "DEV"
  }

  function UserNameVar(suffix: string): string { "USERNAME_" + suffix }
  function PasswordVar(suffix: string): string { "PASSWORD_" + suffix }
  function BaseUrlVar(suffix: string): string { suffix + "_ENV" }

  /** `getEnvFunction()`. */
  function GetEnvFunction(env: Env): EnvVars {
    var suffix := EnvSuffix(env);
    EnvVars(Lookup(env, UserNameVar(suffix)), Lookup(env, PasswordVar(suffix)), Lookup(env, BaseUrlVar(suffix)))
  }

  /** The three fields are read under the same suffix, and each comes back as the variable holds it, empty included. */
  lemma FieldsShareSuffix(env: Env)
    ensures var r, e := GetEnvFunction(env), EnvSuffix(env);
      && (r.userName.Some? <==> "USERNAME_" + e in env)
      && (r.userName.Some? ==> r.userName.value == env["USERNAME_" + e])
      && (r.password.Some? <==> "PASSWORD_" + e in env)
      && (r.password.Some? ==> r.password.value == env["PASSWORD_" + e])
      && (r.baseUrl.Some? <==> e + "_ENV" in env)
      && (r.baseUrl.Some? ==> r.baseUrl.value == env[e + "_ENV"])
  {
  }

  /** `PROD` exactly, and nothing else, selects the production variables. */
  lemma ProdIffExact(env: Env)
    ensures EnvSuffix(env) == "PROD" <==> "NODE_ENV" in env && env["NODE_ENV"] == "PROD"
  {
    assert "PROD" != "DEV";
  }

  /** The production variables: `USERNAME_PROD`, `PASSWORD_PROD` and `PROD_ENV`. */
  lemma ProdVariables(env: Env)
    requires "NODE_ENV" in env && env["NODE_ENV"] == "PROD"
    ensures GetEnvFunction(env) == EnvVars(Lookup(env, "USERNAME_PROD"), Lookup(env, "PASSWORD_PROD"), Lookup(env, "PROD_ENV"))
  {
    assert UserNameVar("PROD") == "USERNAME_PROD";
    assert PasswordVar("PROD") == "PASSWORD_PROD";
    assert BaseUrlVar("PROD") == "PROD_ENV";
  }

  /** Any other value, `production` and `prod` included, reads `USERNAME_DEV`, `PASSWORD_DEV` and `DEV_ENV`. */
  lemma DevVariables(env: Env)
    requires !("NODE_ENV" in env && env["NODE_ENV"] == "PROD")
    ensures GetEnvFunction(env) == EnvVars(Lookup(env, "USERNAME_DEV"), Lookup(env, "PASSWORD_DEV"), Lookup(env, "DEV_ENV"))
  {
    assert UserNameVar("DEV") == "USERNAME_DEV";
    assert PasswordVar("DEV") == "PASSWORD_DEV";
    assert BaseUrlVar("DEV") == "DEV_ENV";
  }
}
