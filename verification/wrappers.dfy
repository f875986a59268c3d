/** Failure-carrying values shared by every module of the model. An empty `cv::Mat`
    returned as an error marker in the C++ code becomes `None` or `Failure(...)` here. */
module Wrappers {

  datatype Option<+T> = None | Some(value: T)

  datatype Result<+T, +E> = Success(value: T) | Failure(error: E)
}
