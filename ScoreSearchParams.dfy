/**
 * `ScoreSearchParams::showLegacyForUser($user, $legacyOnly, $isApiRequest)`:
 * whether score listings are restricted to legacy scores. The answer is
 * `true` or `null` (no restriction), never `false`. An explicit `legacyOnly`
 * decides; without one, an API request gets no restriction and any other
 * request follows the user's `legacy_score_only` setting, which defaults to
 * `true` for guests and for users who never set it.
 */
module ScoreSearchParams {
  import opened Wrappers

  /** A user's profile customization row and its nullable `legacy_score_only` column. */
  datatype Customization = Customization(legacyScoreOnly: Option<bool>)

  /** A user as the decision sees it: with or without a customization row. */
  datatype SearchUser = SearchUser(customization: Option<Customization>)

  /** A user created by the factory: no customization row. */
  const FreshUser := SearchUser(None)

  /**
   * The user's preference: `false` only for a customization row whose setting
   * is `false`; guests and users without a customization row prefer legacy
   * scores. A row whose setting is null never occurs in the tables; treating
   * it as preferring legacy is this model's choice.
   */
  function PrefersLegacy(user: Option<SearchUser>): (r: bool)
    ensures !r <==>
      && user.Some?
      && user.value.customization.Some?
      && user.value.customization.value.legacyScoreOnly == Some(false)
  {
    match user
    case None => true
    case Some(u) =>
      match u.customization
      case None => true
      case Some(c) => c.legacyScoreOnly.GetOr(true)
  }

  /**
   * The decision. A null `isApiRequest` behaves as `false` (not an API
   * request); the result is Some(true) for `true` and None for `null`.
   */
  function ShowLegacyForUser(user: Option<SearchUser>, legacyOnly: Option<bool>, isApiRequest: Option<bool>)
    : (r: Option<bool>)
    ensures r != Some(false)
    ensures r == Some(true) <==>
      || legacyOnly == Some(true)
      || (legacyOnly.None? && isApiRequest != Some(true) && PrefersLegacy(user))
    ensures legacyOnly.Some? ==> (r == Some(true) <==> legacyOnly.value)
  {
    var legacy := if legacyOnly.None? && isApiRequest != Some(true) then Some(PrefersLegacy(user)) else legacyOnly;
    if legacy == Some(true) then Some(true) else None
  }

  /** One row of a data provider: (legacyOnly, isApiRequest, expected). */
  type Row = (Option<bool>, Option<bool>, Option<bool>)

  /** `showLegacyForUserDataSource`, used by both the guest and the fresh-user test. */
  const UserDataSource: seq<Row> := [
    (None, None, Some(true)),
    (None, Some(false), Some(true)),
    (None, Some(true), None),
    (Some(false), None, None),
    (Some(false), Some(false), None),
    (Some(false), Some(true), None),
    (Some(true), None, Some(true)),
    (Some(true), Some(false), Some(true)),
    (Some(true), Some(true), Some(true))
  ]

  /** `showLegacyForUserSettingDataSource`: (setting, expected), both flags null. */
  const UserSettingDataSource: seq<(Option<bool>, Option<bool>)> := [
    (None, Some(true)),
    (Some(false), None),
    (Some(true), Some(true))
  ]

  /** A fresh user, given a customization row only when the setting is not null. */
  function UserWithSetting(setting: Option<bool>): (u: SearchUser)
    ensures setting.None? <==> u == FreshUser
    ensures setting.Some? ==> u.customization == Some(Customization(setting))
  {
    if setting.None? then FreshUser else SearchUser(Some(Customization(setting)))
  }

  /** Every row of the shared data source holds for a guest and for a fresh user. */
  lemma UserDataSourceHolds()
    ensures forall i :: 0 <= i < |UserDataSource| ==>
      && ShowLegacyForUser(None, UserDataSource[i].0, UserDataSource[i].1) == UserDataSource[i].2
      && ShowLegacyForUser(Some(FreshUser), UserDataSource[i].0, UserDataSource[i].1) == UserDataSource[i].2
  {
  }

  /** Every row of the setting data source holds. */
  lemma UserSettingDataSourceHolds()
    ensures forall i :: 0 <= i < |UserSettingDataSource| ==>
      ShowLegacyForUser(Some(UserWithSetting(UserSettingDataSource[i].0)), None, None) == UserSettingDataSource[i].1
  {
  }

  /** An explicit `legacyOnly = true` restricts to legacy scores for everyone, API request or not. */
  lemma LegacyOnlyTrueShowsLegacy(user: Option<SearchUser>, isApiRequest: Option<bool>)
    ensures ShowLegacyForUser(user, Some(true), isApiRequest) == Some(true)
  {
  }

  /** An explicit `legacyOnly = false` never restricts, whatever the user's setting. */
  lemma LegacyOnlyFalseShowsAll(user: Option<SearchUser>, isApiRequest: Option<bool>)
    ensures ShowLegacyForUser(user, Some(false), isApiRequest) == None
  {
  }

  /** Without an explicit flag an API request is never restricted. */
  lemma ApiRequestShowsAll(user: Option<SearchUser>)
    ensures ShowLegacyForUser(user, None, Some(true)) == None
  {
  }

  /** Without an explicit flag a non-API request restricts exactly when the user's setting is not `false`. */
  lemma SettingDecidesOtherwise(user: Option<SearchUser>, isApiRequest: Option<bool>)
    requires isApiRequest != Some(true)
    ensures ShowLegacyForUser(user, None, isApiRequest) == (if PrefersLegacy(user) then Some(true) else None)
  {
  }

  /** A guest and a user without customization are indistinguishable to the decision. */
  lemma GuestMatchesFreshUser(legacyOnly: Option<bool>, isApiRequest: Option<bool>)
    ensures ShowLegacyForUser(None, legacyOnly, isApiRequest) == ShowLegacyForUser(Some(FreshUser), legacyOnly, isApiRequest)
  {
  }
}
