/** Router navigation: a target path and the optional `state.from` the
    login page returns to. */
module Nav {
  import opened Wrappers

  datatype Navigation = Navigate(path: string, from: Option<string>)
}
