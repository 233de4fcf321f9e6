/** The null-or-value wrapper used wherever the plugin works with a nullable
    reference (`string?`, `HtmlDocumentResponse?`, `IElement?`, ...). */
module Wrappers {

  datatype Option<+T> = None | Some(value: T)
}
