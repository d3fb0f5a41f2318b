/**
 * `getCurrentEnvConfig` (config/environments/index.ts): the configuration
 * chosen by `NODE_ENV`, compared in upper case. The configurations are
 * named, not built: their contents are not part of this model.
 */
module EnvConfig {
  import opened Wrappers
  import opened Strings
  import opened Environment
  import opened EnvHelpers

  datatype Config = DevConfig | StagingConfig | ProdConfig

  /** `NODE_ENV`, or `DEV` when it is unset or empty. */
  function NodeEnv(env: Env): string {
    OrDefault(env, "NODE_ENV", "DEV")
  }

  /** The `switch` on the upper-cased name; every other name, `DEV` and `DEVELOPMENT` included, falls to dev. */
  function GetCurrentEnvConfig(env: Env): Config {
    var name := ToUpperCase(NodeEnv(env));
    if name == "PROD" || name == "PRODUCTION" then ProdConfig
    else if name == "STAGING" then StagingConfig
    else DevConfig
  }

  /** With `NODE_ENV` unset or empty the configuration is dev. */
  lemma UnsetIsDev(env: Env)
    requires !IsSet(env, "NODE_ENV")
    ensures GetCurrentEnvConfig(env) == DevConfig
  {
    ToUpperCaseVariant(NodeEnv(env), "DEV");
  }

  /** `prod`, `Production`, `PRODUCTION` and every other case spelling select the prod configuration. */
  lemma ProdAnyCase(env: Env)
    requires IsSet(env, "NODE_ENV")
    requires CaseVariant(env["NODE_ENV"], "PROD") || CaseVariant(env["NODE_ENV"], "PRODUCTION")
    ensures GetCurrentEnvConfig(env) == ProdConfig
  {
    if CaseVariant(env["NODE_ENV"], "PROD") {
      ToUpperCaseVariant(env["NODE_ENV"], "PROD");
    } else {
      ToUpperCaseVariant(env["NODE_ENV"], "PRODUCTION");
    }
  }

  /** `staging` in any case selects the staging configuration. */
  lemma StagingAnyCase(env: Env)
    requires IsSet(env, "NODE_ENV") && CaseVariant(env["NODE_ENV"], "STAGING")
    ensures GetCurrentEnvConfig(env) == StagingConfig
  {
    ToUpperCaseVariant(env["NODE_ENV"], "STAGING");
  }

  /** `development` in any case, like any name that is none of the others, selects dev. */
  lemma DevelopmentIsDev(env: Env)
    requires IsSet(env, "NODE_ENV") && CaseVariant(env["NODE_ENV"], "DEVELOPMENT")
    ensures GetCurrentEnvConfig(env) == DevConfig
  {
    ToUpperCaseVariant(env["NODE_ENV"], "DEVELOPMENT");
  }

  /** Any name whose upper case is none of `PROD`, `PRODUCTION` and `STAGING` falls to the dev default. */
  lemma OtherIsDev(env: Env)
    requires ToUpperCase(NodeEnv(env)) !in {"PROD", "PRODUCTION", "STAGING"}
    ensures GetCurrentEnvConfig(env) == DevConfig
  {
  }

  /**
   * The configuration and the test credentials disagree on `production`:
   * the configuration is prod while the credentials and base URL come from
   * the `DEV` variables, whose selection is exact and case-sensitive.
   */
  lemma ProductionMismatch(env: Env)
    requires "NODE_ENV" in env && env["NODE_ENV"] == "production"
    ensures GetCurrentEnvConfig(env) == ProdConfig
    ensures GetEnvFunction(env) == EnvVars(Lookup(env, "USERNAME_DEV"), Lookup(env, "PASSWORD_DEV"), Lookup(env, "DEV_ENV"))
  {
    assert CaseVariant("production", "PRODUCTION");
    ProdAnyCase(env);
    assert "production" != "PROD";
    DevVariables(env);
  }
}
