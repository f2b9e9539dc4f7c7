/** What a screen handler asks the platform to do. The handlers show
    toasts, call the view model's insert and navigate; the model returns
    these requests as values, in the order the handler issues them.
    An insert carries the effects of its completion callback, which the
    platform runs only once the insert has finished. */
module Effects {
  import opened Users

  datatype Route = SplashScreen | LoginScreen | SignUpScreen | UserDashBoard | TaskUi

  datatype Effect =
    | ShowToast(message: string)
    | InsertUser(user: UserDataModel, onResult: seq<Effect>)
    | Navigate(route: Route, popUpTo: Route, inclusive: bool)

  /** Navigation requested directly by the handler, outside any callback. */
  predicate NavigatesNow(effects: seq<Effect>)
  {
    exists i :: 0 <= i < |effects| && effects[i].Navigate?
  }

  /** Every navigation the effects lead to, including those inside
      completion callbacks. */
  function Navigations(effects: seq<Effect>): (r: seq<Route>)
    decreases effects
  {
    if effects == [] then []
    else
      var head :=
        match effects[0]
        case Navigate(route, _, _) => [route]
        case InsertUser(_, onResult) => Navigations(onResult)
        case ShowToast(_) => [];
      head + Navigations(effects[1..])
  }

  /** The records handed to the store, in order. */
  function Inserts(effects: seq<Effect>): (r: seq<UserDataModel>)
    ensures |r| <= |effects|
  {
    if effects == [] then []
    else (if effects[0].InsertUser? then [effects[0].user] else []) + Inserts(effects[1..])
  }
}
