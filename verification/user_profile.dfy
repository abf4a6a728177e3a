/** The investor profile and its completeness test. */
module UserProfiles {
  import opened Wrappers

  datatype RiskAppetite = Low | Moderate | High

  datatype InvestmentGoal = Retirement | Education | Wealth | ShortTerm

  /** `ShortTerm` is also a goal; the two values live in distinct types. */
  datatype InvestmentHorizon = ShortTerm | MediumTerm | LongTerm

  datatype UserProfile = UserProfile(
    name: string,
    age: real,
    income: real,
    investmentAmount: real,
    riskAppetite: RiskAppetite,
    investmentGoal: InvestmentGoal,
    investmentHorizon: InvestmentHorizon)

  const DefaultProfile: UserProfile :=
    UserProfile("", 30.0, 0.0, 0.0, RiskAppetite.Moderate, Wealth, MediumTerm)

  const AllRiskAppetites: set<RiskAppetite> := {RiskAppetite.Low, RiskAppetite.Moderate, RiskAppetite.High}
  const AllGoals: set<InvestmentGoal> := {Retirement, Education, Wealth, InvestmentGoal.ShortTerm}
  const AllHorizons: set<InvestmentHorizon> := {InvestmentHorizon.ShortTerm, MediumTerm, LongTerm}

  /**
    A profile is complete when one is present, its name is a non-empty string
    (JavaScript truthiness) and age, income and amount are all positive.
   */
  predicate IsProfileComplete(p: Option<UserProfile>) {
    && p.Some?
    && p.value.name != ""
    && p.value.age > 0.0
    && p.value.income > 0.0
    && p.value.investmentAmount > 0.0
  }

  /** Without a profile there is nothing to be complete. */
  lemma AbsentProfileIncomplete()
    ensures !IsProfileComplete(None)
  {
  }

  /** The form's starting values (empty name, zero income and amount) are incomplete. */
  lemma DefaultProfileIncomplete()
    ensures !IsProfileComplete(Some(DefaultProfile))
    ensures DefaultProfile.age > 0.0
  {
  }

  /** The three preferences never decide completeness; only the personal data does. */
  lemma CompletenessIgnoresPreferences(p: UserProfile, r: RiskAppetite, g: InvestmentGoal, h: InvestmentHorizon)
    ensures IsProfileComplete(Some(p))
        == IsProfileComplete(Some(p.(riskAppetite := r, investmentGoal := g, investmentHorizon := h)))
  {
  }

  /** Each enumeration is closed: every value is one of the listed ones. */
  lemma EnumerationsClosed(r: RiskAppetite, g: InvestmentGoal, h: InvestmentHorizon)
    ensures r in AllRiskAppetites && g in AllGoals && h in AllHorizons
    ensures |AllRiskAppetites| == 3 && |AllGoals| == 4 && |AllHorizons| == 3
  {
  }
}
