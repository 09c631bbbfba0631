/** The entry page's redirect, chosen from the two persisted flags. */
module Index {
  datatype Route = DashboardRoute | OnboardingRoute | RegisterRoute

  /** Onboarded students go to the dashboard, registered ones to onboarding, everyone else to registration. */
  function EntryRoute(isRegistered: bool, isOnboarded: bool): (r: Route)
    ensures r == DashboardRoute <==> isOnboarded
    ensures r == OnboardingRoute <==> isRegistered && !isOnboarded
    ensures r == RegisterRoute <==> !isRegistered && !isOnboarded
  {
    if isOnboarded then DashboardRoute
    else if isRegistered then OnboardingRoute
    else RegisterRoute
  }
}
