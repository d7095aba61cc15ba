/** The deployment environments and the development test. */
module Environments {
  type Environment = string

  const Development: Environment := "development"
  const QA: Environment := "qa"
  const Staging: Environment := "staging"
  const Production: Environment := "production"

  /** IsDev: every environment but production and staging counts as development. */
  predicate IsDev(e: Environment) {
    e != Production && e != Staging
  }

  /** Only production and staging are not development; unknown names, the empty one included, are. */
  lemma IsDevTable(e: Environment)
    ensures !IsDev(Production) && !IsDev(Staging)
    ensures IsDev(QA) && IsDev(Development) && IsDev("")
    ensures IsDev(e) <==> e !in {Production, Staging}
  {
  }
}
