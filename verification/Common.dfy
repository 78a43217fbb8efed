/** Names shared by every part of the model. */
module Common {
  datatype Option<+T> = None | Some(value: T)

  /** The namespaced name of a parent object; also the content of a reconcile request. */
  datatype Key = Key(namespace: string, name: string)
}
